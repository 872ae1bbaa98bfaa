/**
 * Tuktuk: the video order, the routing of a server to an extractor, the
 * episode list over the season blocks, the search request and the
 * thumbnail attribute of a listed item.
 */
module Tuktuk {
  import opened Wrappers
  import opened KotlinText
  import opened Media
  import opened Prioritise
  import opened CategorySelect

  const BASE_URL: string := "https://w.tuktokcinema.com"
  const WATCH_LABEL: string := "مشاهدة"
  const EPISODE_MARK: string := " : الحلقة "

  // ---------------------------------------------------------------------
  // Video order
  // ---------------------------------------------------------------------

  /** `List<Video>.sort()`: the preference is read with no default, and `!!` throws when it is unset. */
  function Sort(vs: seq<Video>, stored: Option<string>): (r: Result<seq<Video>>)
    ensures stored.None? <==> r.Failure?
  {
    match stored
    case None => Failure("NullPointerException")
    case Some(quality) => Success(SortedThenReversed(vs, quality))
  }

  /**
   * With a stored preference the videos are only reordered, the matching
   * ones come first, and each group is in reverse input order.
   */
  lemma SortMatchingFirst(vs: seq<Video>, pref: string)
    ensures Sort(vs, Some(pref)).Success?
    ensures var r := Sort(vs, Some(pref)).value;
      multiset(r) == multiset(vs)
      && (forall i, j :: 0 <= i < j < |r| && Contains(r[j].quality, pref) ==> Contains(r[i].quality, pref))
      && r == Reverse(Keep(vs, Test(pref, Substring), true)) + Reverse(Keep(vs, Test(pref, Substring), false))
  {
    SortedThenReversedPermutation(vs, pref);
    SortedThenReversedOrder(vs, pref);
    SortedThenReversedShape(vs, pref);
  }

  // ---------------------------------------------------------------------
  // Server routing
  // ---------------------------------------------------------------------

  datatype Extractor = OkRu | VidBom | Dood | Mp4Upload | StreamWish | MixDrop | NoExtractor

  predicate VidBomLabel(txt: string)
  {
    Contains(txt, "Vidbom") || Contains(txt, "Vidshare") || Contains(txt, "Govid")
  }

  predicate StreamWishLabel(txt: string)
  {
    Contains(txt, "Upstream") || Contains(txt, "streamwish") || Contains(txt, "vidhide")
  }

  /** `extractVideos`: the URL is tested for "ok.ru" first, then the server's label in a fixed order. */
  function ExtractorFor(url: string, txt: string): (r: Extractor)
    ensures r == OkRu <==> Contains(url, "ok.ru")
    ensures r == VidBom <==> !Contains(url, "ok.ru") && VidBomLabel(txt)
    ensures r == Dood <==> !Contains(url, "ok.ru") && !VidBomLabel(txt) && Contains(txt, "dood")
    ensures r == Mp4Upload <==>
      !Contains(url, "ok.ru") && !VidBomLabel(txt) && !Contains(txt, "dood") && Contains(txt, "mp4")
    ensures r == StreamWish <==>
      !Contains(url, "ok.ru") && !VidBomLabel(txt) && !Contains(txt, "dood") && !Contains(txt, "mp4")
      && StreamWishLabel(txt)
    ensures r == MixDrop <==>
      !Contains(url, "ok.ru") && !VidBomLabel(txt) && !Contains(txt, "dood") && !Contains(txt, "mp4")
      && !StreamWishLabel(txt) && Contains(txt, "mixdrop")
  {
    if Contains(url, "ok.ru") then OkRu
    else if VidBomLabel(txt) then VidBom
    else if Contains(txt, "dood") then Dood
    else if Contains(txt, "mp4") then Mp4Upload
    else if StreamWishLabel(txt) then StreamWish
    else if Contains(txt, "mixdrop") then MixDrop
    else NoExtractor
  }

  /** An "ok.ru" URL goes to the OK.ru extractor whatever the label says. */
  lemma OkRuBeforeLabels(url: string, t1: string, t2: string)
    requires Contains(url, "ok.ru")
    ensures ExtractorFor(url, t1) == ExtractorFor(url, t2) == OkRu
  {
  }

  /**
   * One server element: its `data-link`, its label, the body fetched for an
   * "iframe" link, and what the chosen extractor returned (`None` for a null
   * result or a thrown exception).
   */
  datatype Server = Server(url: string, txt: string, iframeBody: Option<string>, extracted: Option<seq<Video>>)

  /** `videosFromElement`; `None` when it throws. */
  function ServerVideos(s: Server): (r: Option<seq<Video>>)
    ensures Contains(s.url, "iframe") ==> (r.Some? <==> s.iframeBody.Some?)
    ensures Contains(s.url, "iframe") && s.iframeBody.Some? ==>
              r.value == [Video(s.iframeBody.value, s.iframeBody.value, s.iframeBody.value)]
    ensures !Contains(s.url, "iframe") && ExtractorFor(s.url, s.txt) == NoExtractor ==> r == Some([])
    ensures !Contains(s.url, "iframe") && ExtractorFor(s.url, s.txt) != NoExtractor ==> r == Some(s.extracted.GetOr([]))
  {
    if Contains(s.url, "iframe") then
      match s.iframeBody
      case None => None
      case Some(body) => Some([Video(body, body, body)])
    else if ExtractorFor(s.url, s.txt) == NoExtractor then Some([])
    else Some(s.extracted.GetOr([]))
  }

  function ServerResults(servers: seq<Server>): (r: seq<Option<seq<Video>>>)
    ensures |r| == |servers|
    ensures forall k :: 0 <= k < |servers| ==> r[k] == ServerVideos(servers[k])
  {
    if |servers| == 0 then [] else [ServerVideos(servers[0])] + ServerResults(servers[1..])
  }

  /** `videoListParse`: the servers' videos in document order, a failing server adding none. */
  function VideoList(servers: seq<Server>): seq<Video>
  {
    FlattenCatching(ServerResults(servers))
  }

  lemma ServerResultsAppend(a: seq<Server>, b: seq<Server>)
    ensures ServerResults(a + b) == ServerResults(a) + ServerResults(b)
  {
    var l, r := ServerResults(a + b), ServerResults(a) + ServerResults(b);
    forall k | 0 <= k < |a| + |b|
      ensures l[k] == r[k]
    {
      if k < |a| {
        assert (a + b)[k] == a[k];
      } else {
        assert (a + b)[k] == b[k - |a|];
      }
    }
  }

  /** A server with an unmatched label, or whose extractor returned nothing, adds no video. */
  lemma SilentServer(before: seq<Server>, s: Server, after: seq<Server>)
    requires !Contains(s.url, "iframe")
    requires ExtractorFor(s.url, s.txt) == NoExtractor || s.extracted.GetOr([]) == []
    ensures VideoList(before + [s] + after) == VideoList(before) + VideoList(after)
  {
    ServerResultsAppend(before + [s], after);
    ServerResultsAppend(before, [s]);
    assert ServerResults([s]) == [ServerVideos(s)];
    FlattenSilent(ServerResults(before), ServerVideos(s), ServerResults(after));
  }

  // ---------------------------------------------------------------------
  // Episodes
  // ---------------------------------------------------------------------

  /** An episode link: its `href` and the text of its `div.epnum`. */
  datatype EpisodeLink = EpisodeLink(href: string, epnum: string)

  /** A season block: its `h3` title and the links of its own page (used when it is not the current season). */
  datatype SeasonBlock = SeasonBlock(title: string, fetched: seq<EpisodeLink>)

  function EpisodeOf(title: string, l: EpisodeLink): Episode
  {
    Episode(l.href + "watch/", title + EPISODE_MARK + FilterDigits(l.epnum), None)
  }

  function SeasonEpisodes(title: string, links: seq<EpisodeLink>): (r: seq<Episode>)
    ensures |r| == |links|
    ensures forall k :: 0 <= k < |links| ==> r[k] == EpisodeOf(title, links[k])
  {
    if |links| == 0 then [] else [EpisodeOf(title, links[0])] + SeasonEpisodes(title, links[1..])
  }

  /** The links of a season: the page's own when its title is the current season's. */
  function SeasonLinks(s: SeasonBlock, current: string, pageLinks: seq<EpisodeLink>): seq<EpisodeLink>
  {
    if s.title == current then pageLinks else s.fetched
  }

  /** The seasons walked from the last block to the first (`reversed()`). */
  function AllSeasons(seasons: seq<SeasonBlock>, current: string, pageLinks: seq<EpisodeLink>): seq<Episode>
  {
    if |seasons| == 0 then []
    else
      var tail := AllSeasons(seasons[1..], current, pageLinks);
      tail + SeasonEpisodes(seasons[0].title, SeasonLinks(seasons[0], current, pageLinks))
  }

  /**
   * The episode list of the page at `pageUrl`; `current` is the breadcrumb's
   * season text, whose absence makes `!!` throw once there is a season.
   */
  function EpisodeList(pageUrl: string, seasons: seq<SeasonBlock>, current: Option<string>,
                       pageLinks: seq<EpisodeLink>): (r: Result<seq<Episode>>)
    ensures |seasons| == 0 ==> r == Success([Episode(pageUrl + "/watch/", WATCH_LABEL, None)])
    ensures |seasons| > 0 ==> (r.Failure? <==> current.None?)
  {
    if |seasons| == 0 then Success([Episode(pageUrl + "/watch/", WATCH_LABEL, None)])
    else if current.None? then Failure("NullPointerException")
    else Success(AllSeasons(seasons, current.value, pageLinks))
  }

  /** `episodeListParse`: the seasons in reverse, each appending its episodes to the mutable list. */
  method EpisodeListParse(pageUrl: string, seasons: seq<SeasonBlock>, current: Option<string>,
                          pageLinks: seq<EpisodeLink>) returns (r: Result<seq<Episode>>)
    ensures r == EpisodeList(pageUrl, seasons, current, pageLinks)
  {
    var episodes: seq<Episode> := [];
    if |seasons| == 0 {
      episodes := episodes + [Episode(pageUrl + "/watch/", WATCH_LABEL, None)];
      assert episodes == [Episode(pageUrl + "/watch/", WATCH_LABEL, None)];
      return Success(episodes);
    }
    var i := |seasons|;
    while i > 0
      invariant 0 <= i <= |seasons|
      invariant i < |seasons| ==> current.Some?
      invariant current.Some? ==> episodes == AllSeasons(seasons[i..], current.value, pageLinks)
    {
      if current.None? {
        return Failure("NullPointerException");
      }
      i := i - 1;
      assert seasons[i..][1..] == seasons[i + 1..];
      var links := if seasons[i].title == current.value then pageLinks else seasons[i].fetched;
      episodes := AddSeason(episodes, seasons[i].title, links);
    }
    assert seasons[0..] == seasons;
    r := Success(episodes);
  }

  /** One season's pass: each link appended to the list in document order. */
  method AddSeason(before: seq<Episode>, title: string, links: seq<EpisodeLink>) returns (episodes: seq<Episode>)
    ensures episodes == before + SeasonEpisodes(title, links)
  {
    episodes := before;
    for j := 0 to |links|
      invariant episodes == before + SeasonEpisodes(title, links[..j])
    {
      var e := EpisodeOf(title, links[j]);
      assert before + SeasonEpisodes(title, links[..j + 1]) == episodes + [e] by {
        assert links[..j + 1] == links[..j] + [links[j]];
        SeasonEpisodesAppend(title, links[..j], [links[j]]);
        assert SeasonEpisodes(title, [links[j]]) == [e];
      }
      episodes := episodes + [e];
    }
    assert links[..|links|] == links;
  }

  lemma {:induction false} SeasonEpisodesAppend(title: string, a: seq<EpisodeLink>, b: seq<EpisodeLink>)
    ensures SeasonEpisodes(title, a + b) == SeasonEpisodes(title, a) + SeasonEpisodes(title, b)
  {
    if |a| > 0 {
      assert (a + b)[1..] == a[1..] + b;
      SeasonEpisodesAppend(title, a[1..], b);
    } else {
      assert a + b == b;
    }
  }

  /**
   * Every episode name is `<season> : الحلقة <digits>`: what follows the
   * marker is made of digits only and is the digits of the `epnum` text.
   */
  lemma EpisodeNameDigits(title: string, l: EpisodeLink)
    ensures var name := EpisodeOf(title, l).name;
      var digits := name[|title| + |EPISODE_MARK|..];
      StartsWith(name, title + EPISODE_MARK) && AllDigits(digits) && digits == FilterDigits(l.epnum)
      && FilterDigits(digits) == digits
  {
    var name := EpisodeOf(title, l).name;
    assert name[..|title| + |EPISODE_MARK|] == title + EPISODE_MARK;
    assert name[|title| + |EPISODE_MARK|..] == FilterDigits(l.epnum);
    FilterDigitsIdempotent(l.epnum);
  }

  // ---------------------------------------------------------------------
  // Search and listing
  // ---------------------------------------------------------------------

  /** The `query` of each category (`getCategoryList()`); index 0 is "choose". */
  const CATEGORY_QUERIES: seq<string> := [
    "",
    "category/movies-33/",
    "category/movies-33/افلام-اجنبي/",
    "category/anime-6/افلام-انمي/",
    "category/movies-33/افلام-تركي/",
    "category/movies-33/افلام-اسيوي/",
    "category/movies-33/افلام-هندى/",
    "category/series-9/",
    "category/series-9/مسلسلات-اجنبي/",
    "category/anime-6/انمي-مترجم/",
    "category/series-9/مسلسلات-تركي/",
    "category/series-9/مسلسلات-أسيوي/",
    "category/series-9/مسلسلات-هندي/"
  ]

  /** `searchAnimeRequest`; a state past the table's end throws. */
  function SearchUrl(page: int, query: string, filters: seq<Filter>): (r: Result<string>)
    ensures !IsBlank(query) ==> r == Success(BASE_URL + "/?s=" + query + "&page=" + IntToString(page))
    ensures IsBlank(query) && ChosenCategory(filters).None? ==> r == Success(BASE_URL)
    ensures IsBlank(query) && ChosenCategory(filters).Some? ==>
      var c := ChosenCategory(filters).value;
      (r.Failure? <==> c >= |CATEGORY_QUERIES|)
      && (r.Success? ==> r.value == BASE_URL + "/" + CATEGORY_QUERIES[c] + "/?page=" + IntToString(page) + "/")
  {
    if !IsBlank(query) then Success(BASE_URL + "/?s=" + query + "&page=" + IntToString(page))
    else
      match ChosenCategory(filters)
      case None => Success(BASE_URL)
      case Some(c) =>
        if c < |CATEGORY_QUERIES| then Success(BASE_URL + "/" + CATEGORY_QUERIES[c] + "/?page=" + IntToString(page) + "/")
        else Failure("IndexOutOfBoundsException")
  }

  /** The image attribute of a listed item: "src" on a search-result page, "data-src" elsewhere. */
  function ThumbnailAttribute(location: string): (r: string)
    ensures r == "src" <==> Contains(location, "?s=")
  {
    if Contains(location, "?s=") then "src" else "data-src"
  }

  /** The pages a text search requests are the ones whose thumbnails are read from "src". */
  lemma SearchPagesUseSrc(page: int, query: string, filters: seq<Filter>)
    requires !IsBlank(query)
    ensures ThumbnailAttribute(SearchUrl(page, query, filters).value) == "src"
  {
    var tail := query + "&page=" + IntToString(page);
    assert SearchUrl(page, query, filters).value == (BASE_URL + "/") + "?s=" + tail;
    ContainsInfix(BASE_URL + "/", "?s=", tail);
  }

  /** The plain listing and the category pages are read from "data-src". */
  lemma ListingPagesUseDataSrc(page: int, filters: seq<Filter>)
    requires ChosenCategory(filters).None?
    ensures ThumbnailAttribute(SearchUrl(page, "", filters).value) == "data-src"
  {
    NoFirstCharNoOccurrence(BASE_URL, "?s=");
  }
}
