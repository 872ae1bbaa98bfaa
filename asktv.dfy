/**
 * AskTv (قصة عشق): the host preference, the video order, the dispatch of a
 * server record to an embed address and extractor, the episode list read
 * from the episode articles, the thumbnail and link clean-ups, the status
 * rule and the search request.
 */
module AskTv {
  import opened Wrappers
  import opened KotlinText
  import opened Media
  import opened Prioritise

  // ---------------------------------------------------------------------
  // Preferences
  // ---------------------------------------------------------------------

  const DEFAULT_DOMAIN: string := "https://arab3sk.net"
  const QUALITY_DEFAULT: string := "1080p"

  /** `getPrefHostUrl`: the stored domain, "https://arab3sk.net" when none is stored, trimmed. */
  function HostUrl(stored: Option<string>): string
  {
    Trim(stored.GetOr(DEFAULT_DOMAIN))
  }

  /** Without a stored domain the site is "https://arab3sk.net"; whatever is stored, trimming it again changes nothing. */
  lemma HostUrlTrimmed(stored: Option<string>)
    ensures stored.None? ==> HostUrl(stored) == DEFAULT_DOMAIN
    ensures Trim(HostUrl(stored)) == HostUrl(stored)
  {
    TrimClean(DEFAULT_DOMAIN);
    TrimIdempotent(stored.GetOr(DEFAULT_DOMAIN));
  }

  /** A domain typed with surrounding blanks is used without them. */
  lemma HostUrlPadded(domain: string, pad1: string, pad2: string)
    requires |domain| > 0 && !IsWhitespace(domain[0]) && !IsWhitespace(domain[|domain| - 1])
    requires IsBlank(pad1) && IsBlank(pad2)
    ensures HostUrl(Some(pad1 + domain + pad2)) == domain
  {
    TrimPadded(pad1, domain, pad2);
  }

  // ---------------------------------------------------------------------
  // Video order
  // ---------------------------------------------------------------------

  /** `List<Video>.sort()`: the stored preference, "1080p" when none is stored. */
  function Sort(vs: seq<Video>, stored: Option<string>): seq<Video>
  {
    SortedThenReversed(vs, stored.GetOr(QUALITY_DEFAULT))
  }

  /**
   * The videos are only reordered, those whose quality contains the
   * preference come first, and each group is in reverse input order.
   */
  lemma SortMatchingFirst(vs: seq<Video>, stored: Option<string>)
    ensures var pref := stored.GetOr(QUALITY_DEFAULT);
      var r := Sort(vs, stored);
      multiset(r) == multiset(vs)
      && (forall i, j :: 0 <= i < j < |r| && Contains(r[j].quality, pref) ==> Contains(r[i].quality, pref))
      && r == Reverse(Keep(vs, Test(pref, Substring), true)) + Reverse(Keep(vs, Test(pref, Substring), false))
  {
    var pref := stored.GetOr(QUALITY_DEFAULT);
    SortedThenReversedPermutation(vs, pref);
    SortedThenReversedOrder(vs, pref);
    SortedThenReversedShape(vs, pref);
  }

  // ---------------------------------------------------------------------
  // Server dispatch
  // ---------------------------------------------------------------------

  /** A server record of the episode data: its `id` and its `name`. */
  datatype Server = Server(id: string, name: string)

  datatype Extractor = Okru | Dailymotion | Estream | VidBom | StreamSB | ProHd

  /** The server names `extractVideos` knows, one per extractor. */
  const SERVER_NAMES: seq<string> := ["ok", "dailymotion", "estream", "now", "Red HD", "Pro HD"]

  /** `extractVideos`' `when (server.name)`: exact names; any other gets no extractor. */
  function ExtractorFor(name: string): (r: Option<Extractor>)
    ensures r.None? <==> name !in SERVER_NAMES
  {
    if name == "ok" then Some(Okru)
    else if name == "dailymotion" then Some(Dailymotion)
    else if name == "estream" then Some(Estream)
    else if name == "now" then Some(VidBom)
    else if name == "Red HD" then Some(StreamSB)
    else if name == "Pro HD" then Some(ProHd)
    else None
  }

  /** The name each extractor answers to. */
  function NameOf(e: Extractor): string
  {
    match e
    case Okru => "ok"
    case Dailymotion => "dailymotion"
    case Estream => "estream"
    case VidBom => "now"
    case StreamSB => "Red HD"
    case ProHd => "Pro HD"
  }

  /** Each extractor is chosen by its own name and by no other. */
  lemma ExtractorNames(name: string, e: Extractor)
    ensures ExtractorFor(NameOf(e)) == Some(e)
    ensures ExtractorFor(name) == Some(e) ==> name == NameOf(e)
  {
  }

  /** The text in front of the server id in the address given to the extractor. */
  function EmbedPrefix(e: Extractor): string
  {
    match e
    case Okru => "https://www.ok.ru/videoembed/"
    case Dailymotion => ""
    case Estream => "https://arabveturk.sbs/embed-"
    case VidBom => "https://extreamnow.org/embed-"
    case StreamSB => "https://www.sbbrisk.com/e/"
    case ProHd => "https://segavid.com/embed-"
  }

  /** The text after the server id; the Dailymotion extractor takes the bare id. */
  function EmbedSuffix(e: Extractor): string
  {
    match e
    case Okru => ""
    case Dailymotion => ""
    case Estream => ".html"
    case VidBom => ".html"
    case StreamSB => ""
    case ProHd => ".html"
  }

  /** The address the server's extractor fetches, `None` for an unknown name. */
  function EmbedAddress(s: Server): Option<string>
  {
    match ExtractorFor(s.name)
    case None => None
    case Some(e) => Some(EmbedPrefix(e) + s.id + EmbedSuffix(e))
  }

  /** The server id is read back from the embed address by removing the extractor's prefix and suffix. */
  lemma EmbedAddressReadBack(s: Server)
    requires s.name in SERVER_NAMES
    ensures var e := ExtractorFor(s.name).value;
      RemoveSuffix(RemovePrefix(EmbedAddress(s).value, EmbedPrefix(e)), EmbedSuffix(e)) == s.id
  {
    var e := ExtractorFor(s.name).value;
    var address := EmbedPrefix(e) + s.id + EmbedSuffix(e);
    assert address == EmbedPrefix(e) + (s.id + EmbedSuffix(e));
    assert StartsWith(address, EmbedPrefix(e));
    assert RemovePrefix(address, EmbedPrefix(e)) == s.id + EmbedSuffix(e);
    assert EndsWith(s.id + EmbedSuffix(e), EmbedSuffix(e)) by {
      assert (s.id + EmbedSuffix(e))[|s.id|..] == EmbedSuffix(e);
    }
  }

  /**
   * One server's videos: an unknown name gives the empty list; otherwise
   * `extract` stands for the extractor run on the embed address (`None`
   * when it throws, which `runCatching` turns into nothing).
   */
  function ServerVideos(s: Server, extract: (Extractor, string) -> Option<seq<Video>>): Option<seq<Video>>
  {
    match ExtractorFor(s.name)
    case None => Some([])
    case Some(e) => extract(e, EmbedAddress(s).value)
  }

  function ServerResults(servers: seq<Server>, extract: (Extractor, string) -> Option<seq<Video>>): seq<Option<seq<Video>>>
  {
    seq(|servers|, k requires 0 <= k < |servers| => ServerVideos(servers[k], extract))
  }

  /** `videoListParse` after the episode data is decoded: the servers' videos in order, failures dropped. */
  function VideoList(servers: seq<Server>, extract: (Extractor, string) -> Option<seq<Video>>): seq<Video>
  {
    FlattenCatching(ServerResults(servers, extract))
  }

  /** Every video comes from a server with a known name, as its extractor returned it for the embed address. */
  lemma VideoFromKnownServer(servers: seq<Server>, extract: (Extractor, string) -> Option<seq<Video>>, v: Video)
    requires v in VideoList(servers, extract)
    ensures exists k :: 0 <= k < |servers| && servers[k].name in SERVER_NAMES
                        && v in extract(ExtractorFor(servers[k].name).value, EmbedAddress(servers[k]).value).GetOr([])
  {
    var results := ServerResults(servers, extract);
    FlattenFromSuccesses(results, v);
    var k :| 0 <= k < |results| && results[k].Some? && v in results[k].value;
    assert results[k] == ServerVideos(servers[k], extract);
  }

  /** The results of two server lists one after the other are the results of the joined list. */
  lemma ServerResultsAppend(a: seq<Server>, b: seq<Server>, extract: (Extractor, string) -> Option<seq<Video>>)
    ensures ServerResults(a + b, extract) == ServerResults(a, extract) + ServerResults(b, extract)
  {
    var all, r := a + b, ServerResults(a, extract) + ServerResults(b, extract);
    forall k | 0 <= k < |all|
      ensures ServerResults(all, extract)[k] == r[k]
    {
      if k < |a| {
        assert all[k] == a[k];
      } else {
        assert all[k] == b[k - |a|];
      }
    }
  }

  /** A server with an unknown name adds nothing, wherever it stands. */
  lemma UnknownServerSilent(before: seq<Server>, s: Server, after: seq<Server>,
                            extract: (Extractor, string) -> Option<seq<Video>>)
    requires s.name !in SERVER_NAMES
    ensures VideoList(before + [s] + after, extract) == VideoList(before, extract) + VideoList(after, extract)
  {
    ServerResultsAppend(before, [s], extract);
    ServerResultsAppend(before + [s], after, extract);
    assert ServerResults([s], extract) == [ServerVideos(s, extract)];
    FlattenSilent(ServerResults(before, extract), ServerVideos(s, extract), ServerResults(after, extract));
  }

  // ---------------------------------------------------------------------
  // Episodes
  // ---------------------------------------------------------------------

  /** An `article.postEp` element: the `href` of its link and the text of its `.episodeNum`. */
  datatype Article = Article(href: string, numberText: string)

  const WATCH_LABEL: string := "مشاهدة"
  const EPISODE_WORD: string := "الحلفة "
  const LINK_MARK: string := "url="
  const ESCAPED_EQUALS: string := "%3D"

  /** The target of a redirect link: the text after "url=", with "%3D" unescaped to "=". */
  function LinkTarget(href: string): string
  {
    Replace(SubstringAfter(href, LINK_MARK), ESCAPED_EQUALS, "=")
  }

  /** The episode an article names; a number text without a readable digit throws. */
  function ArticleEpisode(a: Article): (r: Result<Episode>)
    ensures r.Success? <==> DigitsNumber(a.numberText).Success?
    ensures r.Success? ==> r.value.url == LinkTarget(a.href) && r.value.number == Some(FilterDigits(a.numberText))
  {
    var digits := FilterDigits(a.numberText);
    match DigitsNumber(a.numberText)
    case Failure(e) => Failure(e)
    case Success(n) => Success(Episode(LinkTarget(a.href), EPISODE_WORD + digits, Some(n)))
  }

  /** The articles' episodes in document order; the first article that throws ends the list. */
  function ArticleEpisodes(articles: seq<Article>): Result<seq<Episode>>
  {
    if |articles| == 0 then Success([])
    else
      match ArticleEpisodes(articles[..|articles| - 1])
      case Failure(e) => Failure(e)
      case Success(es) =>
        match ArticleEpisode(articles[|articles| - 1])
        case Failure(e) => Failure(e)
        case Success(last) => Success(es + [last])
  }

  /** The episode list of a page at `url`: one "مشاهدة" episode numbered 1 when it has no articles. */
  function EpisodeList(url: string, articles: seq<Article>): Result<seq<Episode>>
  {
    if |articles| == 0 then Success([Episode(url, WATCH_LABEL, Some("1"))]) else ArticleEpisodes(articles)
  }

  /** `episodeListParse`: `addEpisodes` appending to the mutable `episodes` list. */
  method EpisodeListParse(url: string, articles: seq<Article>) returns (r: Result<seq<Episode>>)
    ensures r == EpisodeList(url, articles)
  {
    var episodes: seq<Episode> := [];
    if |articles| == 0 {
      episodes := episodes + [Episode(url, WATCH_LABEL, Some("1"))];
      assert episodes == [Episode(url, WATCH_LABEL, Some("1"))];
      return Success(episodes);
    }
    assert articles[..0] == [];
    for i := 0 to |articles|
      invariant ArticleEpisodes(articles[..i]) == Success(episodes)
    {
      assert articles[..i + 1][..i] == articles[..i];
      var episode := ArticleEpisode(articles[i]);
      if episode.Failure? {
        ArticleEpisodesPrefix(articles, i + 1);
        return Failure(episode.error);
      }
      episodes := episodes + [episode.value];
    }
    assert articles[..|articles|] == articles;
    r := Success(episodes);
  }

  /** Once a prefix of the articles throws, the whole list throws the same. */
  lemma {:induction false} ArticleEpisodesPrefix(articles: seq<Article>, i: nat)
    requires i <= |articles| && ArticleEpisodes(articles[..i]).Failure?
    ensures ArticleEpisodes(articles) == ArticleEpisodes(articles[..i])
    decreases |articles| - i
  {
    if i == |articles| {
      assert articles[..i] == articles;
    } else {
      var front := articles[..|articles| - 1];
      assert front[..i] == articles[..i];
      ArticleEpisodesPrefix(front, i);
    }
  }

  /** A successful read has one episode per article, the `k`-th being the `k`-th article's. */
  lemma {:induction false} ArticleEpisodeAt(articles: seq<Article>, k: nat)
    requires k < |articles| && ArticleEpisodes(articles).Success?
    ensures |ArticleEpisodes(articles).value| == |articles| && ArticleEpisode(articles[k]).Success?
    ensures ArticleEpisodes(articles).value[k] == ArticleEpisode(articles[k]).value
    decreases |articles|
  {
    var front := articles[..|articles| - 1];
    if k < |front| {
      ArticleEpisodeAt(front, k);
      assert articles[k] == front[k];
    } else if |front| > 0 {
      ArticleEpisodeAt(front, 0);
    }
  }

  /** The name and the number of an article's episode agree: the name is "الحلفة " and the number's text. */
  lemma EpisodeNameCarriesNumber(a: Article)
    requires ArticleEpisode(a).Success?
    ensures var ep := ArticleEpisode(a).value;
      ep.number.Some? && ep.name == EPISODE_WORD + ep.number.value
      && RemovePrefix(ep.name, EPISODE_WORD) == ep.number.value
  {
    var ep := ArticleEpisode(a).value;
    assert StartsWith(ep.name, EPISODE_WORD) by {
      assert ep.name[..|EPISODE_WORD|] == EPISODE_WORD;
    }
  }

  /**
   * A redirect link `<pre>url=<code>` whose code has no `%` gives the code;
   * one whose code ends in an escaped padding `%3D` gives the code with "=".
   */
  lemma LinkTargetOfRedirect(pre: string, code: string)
    requires FirstAtEnd(pre, LINK_MARK) && '%' !in code
    ensures LinkTarget(pre + LINK_MARK + code) == code
    ensures LinkTarget(pre + LINK_MARK + code + ESCAPED_EQUALS) == code + "="
  {
    FirstOccurrence(pre, LINK_MARK, code);
    NoFirstCharNoOccurrence(code, ESCAPED_EQUALS);
    ReplaceAbsent(code, ESCAPED_EQUALS, "=");
    assert pre + LINK_MARK + code + ESCAPED_EQUALS == pre + LINK_MARK + (code + ESCAPED_EQUALS);
    FirstOccurrence(pre, LINK_MARK, code + ESCAPED_EQUALS);
    FirstAtEndFirstChar(code, ESCAPED_EQUALS);
    ReplaceFirst(code, ESCAPED_EQUALS, "", "=");
    assert code + ESCAPED_EQUALS + "" == code + ESCAPED_EQUALS;
    NoFirstCharNoOccurrence("", ESCAPED_EQUALS);
    ReplaceAbsent("", ESCAPED_EQUALS, "=");
  }

  // ---------------------------------------------------------------------
  // Listing clean-ups
  // ---------------------------------------------------------------------

  /** The address inside the `url(...)` of a `style` attribute. */
  function StyleUrl(style: string): string
  {
    SubstringBefore(SubstringAfter(style, "url("), ")")
  }

  /** `popularAnimeFromElement`'s thumbnail: the style's address with every "large" made "long". */
  function PopularThumbnail(style: string): string
  {
    Replace(StyleUrl(style), "large", "long")
  }

  /**
   * A style `<pre>url(<a>large<b>)<rest>` whose address has no `)` and one
   * "large" gives the address `<a>long<b>`; the search and latest thumbnails
   * keep "large".
   */
  lemma ThumbnailOfStyle(pre: string, a: string, b: string, rest: string)
    requires FirstAtEnd(pre, "url(") && ')' !in a + "large" + b
    requires FirstAtEnd(a, "large") && !Contains(b, "large")
    ensures StyleUrl(pre + "url(" + (a + "large" + b) + ")" + rest) == a + "large" + b
    ensures PopularThumbnail(pre + "url(" + (a + "large" + b) + ")" + rest) == a + "long" + b
  {
    var v := a + "large" + b;
    FirstAtEndChar(v, ')');
    Between(pre, "url(", v, ")", rest);
    ReplaceFirst(a, "large", b, "long");
    ReplaceAbsent(b, "large", "long");
  }

  /**
   * `searchAnimeFromElement`'s link: a redirect link is decoded from the text
   * after "url="; `decode` stands for the Base64 decoding.
   */
  function SearchLink(href: string, decode: string -> string): string
  {
    if Contains(href, LINK_MARK) then decode(SubstringAfter(href, LINK_MARK)) else href
  }

  /** `latestUpdatesFromElement`'s link: the redirect target, unescaped like an episode link, then decoded. */
  function LatestLink(href: string, decode: string -> string): string
  {
    decode(LinkTarget(href))
  }

  /** A plain link, with no "url=", is used as it is by search and is decoded whole by latest. */
  lemma PlainLinks(href: string, decode: string -> string)
    requires !Contains(href, LINK_MARK)
    ensures SearchLink(href, decode) == href
    ensures !Contains(href, ESCAPED_EQUALS) ==> LatestLink(href, decode) == decode(href)
  {
    MissingDelimiter(href, LINK_MARK);
    if !Contains(href, ESCAPED_EQUALS) {
      ReplaceAbsent(href, ESCAPED_EQUALS, "=");
    }
  }

  // ---------------------------------------------------------------------
  // Details and search
  // ---------------------------------------------------------------------

  const LAST_WORD: string := "الأخيرة"

  /** `animeDetailsParse`: completed when the page text has "الأخيرة" (the last one), otherwise ongoing. */
  function AnimeStatus(bodyText: string): (r: Status)
    ensures r == Completed <==> Contains(bodyText, LAST_WORD)
    ensures r != Completed ==> r == Ongoing
  {
    if Contains(bodyText, LAST_WORD) then Completed else Ongoing
  }

  /** The word anywhere in the page marks it completed. */
  lemma LastWordCompletes(pre: string, post: string)
    ensures AnimeStatus(pre + LAST_WORD + post) == Completed
  {
    var t := pre + LAST_WORD + post;
    assert t[|pre|..|pre| + |LAST_WORD|] == LAST_WORD;
    OccursAtContains(t, LAST_WORD, |pre|);
  }

  /** `searchAnimeRequest`: the query as a path segment; the filters are not read. */
  function SearchUrl(host: string, page: int, query: string): string
  {
    host + "/search/" + query + "/page/" + IntToString(page) + "/"
  }

  /** The segment after "/search/" is the query as typed, when it has no `/`. */
  lemma SearchQueryReadBack(host: string, page: int, query: string)
    requires FirstAtEnd(host, "/search/") && '/' !in query
    ensures SubstringBefore(SubstringAfter(SearchUrl(host, page, query), "/search/"), "/page/") == query
  {
    FirstAtEndFirstChar(query, "/page/");
    assert SearchUrl(host, page, query) == host + "/search/" + query + "/page/" + (IntToString(page) + "/");
    Between(host, "/search/", query, "/page/", IntToString(page) + "/");
  }
}
