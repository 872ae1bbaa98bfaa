/**
 * AsianLoad: the insertion-loop video order, the routing of each server
 * element to a host extractor, the episode read from a list item and the
 * search request.
 */
module AsianLoad {
  import opened Wrappers
  import opened KotlinText
  import opened Media
  import opened Prioritise
  import opened CategorySelect

  const BASE_URL: string := "https://asianembed.io"

  // ---------------------------------------------------------------------
  // Video order
  // ---------------------------------------------------------------------

  /**
   * `List<Video>.sort()`: `quality` is the stored preference; `null` leaves
   * the list as it is, otherwise the insertion loop moves the videos whose
   * quality contains it to the front.
   */
  method Sort(videos: seq<Video>, quality: Option<string>) returns (r: seq<Video>)
    ensures quality.None? ==> r == videos
    ensures quality.Some? ==> r == PreferredFirst(videos, quality.value, Substring)
  {
    if quality.Some? {
      r := InsertPreferred(videos, quality.value, Substring);
      return;
    }
    r := videos;
  }

  /**
   * The insertion loop only reorders, puts every video whose quality
   * contains `pref` before every other, and keeps each group in input order.
   */
  lemma SortPreferredFirst(vs: seq<Video>, pref: string)
    ensures var r := PreferredFirst(vs, pref, Substring);
      |r| == |vs| && multiset(r) == multiset(vs)
      && (forall i, j :: 0 <= i < j < |r| && Contains(r[j].quality, pref) ==> Contains(r[i].quality, pref))
      && Keep(r, Test(pref, Substring), true) == Keep(vs, Test(pref, Substring), true)
      && Keep(r, Test(pref, Substring), false) == Keep(vs, Test(pref, Substring), false)
  {
    var r := PreferredFirst(vs, pref, Substring);
    PreferredFirstPermutation(vs, pref, Substring);
    assert |r| == |multiset(r)| == |multiset(vs)| == |vs|;
    PreferredFirstOrder(vs, pref, Substring);
    PreferredFirstStable(vs, pref, Substring);
  }

  // ---------------------------------------------------------------------
  // Server routing
  // ---------------------------------------------------------------------

  /** The host names sent to the StreamSB extractor. */
  const STREAMSB_HOSTS: seq<string> := [
    "sbembed.com", "sbembed1.com", "sbplay.org", "sbvideo.net", "streamsb.net", "sbplay.one", "cloudemb.com",
    "playersb.com", "tubesb.com", "sbplay1.com", "embedsb.com", "watchsb.com", "sbplay2.com", "japopav.tv",
    "viewsb.com", "sbfast", "sbfull.com", "javplaya.com", "ssbstream.net", "p1ayerjavseen.com", "sbthe.com"
  ]

  /** The host names sent to the Fembed extractor. */
  const FEMBED_HOSTS: seq<string> := [
    "fembed.com", "anime789.com", "24hd.club", "fembad.org", "vcdn.io", "sharinglink.club", "moviemaniac.org",
    "votrefiles.club", "femoload.xyz", "albavido.xyz", "feurl.com", "dailyplanet.pw", "ncdnstm.com", "jplayer.net",
    "xstreamcdn.com", "fembed-hd.com", "gcloud.live", "vcdnplay.com", "superplayxyz.club", "vidohd.com",
    "vidsource.me", "cinegrabber.com", "votrefile.xyz", "zidiplay.com", "ndrama.xyz", "fcdn.stream",
    "mediashore.org", "suzihaza.com", "there.to", "femax20.com", "javstream.top", "viplayer.cc", "sexhd.co",
    "fembed.net", "mrdhan.com", "votrefilms.xyz", "embedsito.com", "dutrag.com", "youvideos.ru", "streamm4u.club",
    "moviepl.xyz", "asianclub.tv", "vidcloud.fun", "fplayer.info", "diasfem.com", "javpoll.com"
  ]

  /** The URL names one of the hosts. */
  predicate OnHost(url: string, hosts: seq<string>)
  {
    exists k :: 0 <= k < |hosts| && Contains(url, hosts[k])
  }

  datatype Extractor = StreamSB | Dood | Fembed | StreamTape | NoExtractor

  /** The `when` of `videosFromElement`: StreamSB hosts, then "dood", then Fembed hosts, then "streamtape". */
  function ExtractorFor(url: string): (r: Extractor)
    ensures r == StreamSB <==> OnHost(url, STREAMSB_HOSTS)
    ensures r == Dood <==> !OnHost(url, STREAMSB_HOSTS) && Contains(url, "dood")
    ensures r == Fembed <==> !OnHost(url, STREAMSB_HOSTS) && !Contains(url, "dood") && OnHost(url, FEMBED_HOSTS)
    ensures r == StreamTape <==> !OnHost(url, STREAMSB_HOSTS) && !Contains(url, "dood") && !OnHost(url, FEMBED_HOSTS)
                                 && Contains(url, "streamtape")
  {
    if OnHost(url, STREAMSB_HOSTS) then StreamSB
    else if Contains(url, "dood") then Dood
    else if OnHost(url, FEMBED_HOSTS) then Fembed
    else if Contains(url, "streamtape") then StreamTape
    else NoExtractor
  }

  /**
   * What one `data-video` URL adds. The extractors are outside the model:
   * `many` is what a list extractor (StreamSB, Fembed) returns for a URL,
   * `one` what a single-video extractor (Dood, StreamTape) returns, `None`
   * for `null`.
   */
  function ServerVideos(url: string, many: (Extractor, string) -> seq<Video>,
                        one: (Extractor, string) -> Option<Video>): seq<Video>
  {
    match ExtractorFor(url)
    case StreamSB => many(StreamSB, url)
    case Fembed => many(Fembed, url)
    case Dood => if one(Dood, url).Some? then [one(Dood, url).value] else []
    case StreamTape => if one(StreamTape, url).Some? then [one(StreamTape, url).value] else []
    case NoExtractor => []
  }

  /** The servers' videos, in document order. */
  function Collected(urls: seq<string>, many: (Extractor, string) -> seq<Video>,
                     one: (Extractor, string) -> Option<Video>): seq<Video>
  {
    if |urls| == 0 then []
    else Collected(urls[..|urls| - 1], many, one) + ServerVideos(urls[|urls| - 1], many, one)
  }

  /** `videosFromElement`: the loop over the `ul.list-server-items li` elements' `data-video`. */
  method VideosFromElement(urls: seq<string>, many: (Extractor, string) -> seq<Video>,
                           one: (Extractor, string) -> Option<Video>) returns (videoList: seq<Video>)
    ensures videoList == Collected(urls, many, one)
  {
    videoList := [];
    for i := 0 to |urls|
      invariant videoList == Collected(urls[..i], many, one)
    {
      var url := urls[i];
      assert urls[..i + 1][..i] == urls[..i];
      match ExtractorFor(url)
      case StreamSB =>
        var videos := many(StreamSB, url);
        videoList := videoList + videos;
      case Dood =>
        var video := one(Dood, url);
        if video.Some? {
          videoList := videoList + [video.value];
        }
      case Fembed =>
        var videos := many(Fembed, url);
        videoList := videoList + videos;
      case StreamTape =>
        var video := one(StreamTape, url);
        if video.Some? {
          videoList := videoList + [video.value];
        }
      case NoExtractor =>
    }
    assert urls[..|urls|] == urls;
  }

  /** Collecting two runs of servers is collecting each and concatenating: document order is kept. */
  lemma {:induction false} CollectedAppend(a: seq<string>, b: seq<string>, many: (Extractor, string) -> seq<Video>,
                                           one: (Extractor, string) -> Option<Video>)
    ensures Collected(a + b, many, one) == Collected(a, many, one) + Collected(b, many, one)
    decreases |b|
  {
    if |b| == 0 {
      assert a + b == a;
    } else {
      var front := b[..|b| - 1];
      assert (a + b)[..|a + b| - 1] == a + front;
      CollectedAppend(a, front, many, one);
    }
  }

  /** Every collected video comes from a server some extractor claims. */
  lemma {:induction false} VideoFromRoutedServer(urls: seq<string>, many: (Extractor, string) -> seq<Video>,
                                                 one: (Extractor, string) -> Option<Video>, v: Video)
    requires v in Collected(urls, many, one)
    ensures exists k :: 0 <= k < |urls| && ExtractorFor(urls[k]) != NoExtractor && v in ServerVideos(urls[k], many, one)
  {
    var front := urls[..|urls| - 1];
    if v in Collected(front, many, one) {
      VideoFromRoutedServer(front, many, one, v);
      var k :| 0 <= k < |front| && ExtractorFor(front[k]) != NoExtractor && v in ServerVideos(front[k], many, one);
      assert urls[k] == front[k];
    } else {
      assert v in ServerVideos(urls[|urls| - 1], many, one);
    }
  }

  /** A URL no extractor claims adds nothing, wherever it stands. */
  lemma UnroutedServerSilent(before: seq<string>, url: string, after: seq<string>,
                             many: (Extractor, string) -> seq<Video>, one: (Extractor, string) -> Option<Video>)
    requires ExtractorFor(url) == NoExtractor
    ensures Collected(before + [url] + after, many, one) == Collected(before, many, one) + Collected(after, many, one)
  {
    CollectedAppend(before + [url], after, many, one);
    UnroutedAddsNothing(before, url, many, one);
  }

  lemma UnroutedAddsNothing(before: seq<string>, url: string,
                            many: (Extractor, string) -> seq<Video>, one: (Extractor, string) -> Option<Video>)
    requires ExtractorFor(url) == NoExtractor
    ensures Collected(before + [url], many, one) == Collected(before, many, one)
  {
    assert (before + [url])[..|before|] == before;
    assert ServerVideos(url, many, one) == [];
  }

  /** A single-video server adds at most one video. */
  lemma SingleVideoServer(url: string, many: (Extractor, string) -> seq<Video>, one: (Extractor, string) -> Option<Video>)
    requires ExtractorFor(url) == Dood || ExtractorFor(url) == StreamTape
    ensures |ServerVideos(url, many, one)| <= 1
    ensures |ServerVideos(url, many, one)| == 1 <==> one(ExtractorFor(url), url).Some?
  {
  }

  // ---------------------------------------------------------------------
  // Episodes
  // ---------------------------------------------------------------------

  /** A `ul.listing.items.lists li a` element: its `href`, `div.type span` text and `div.name` text. */
  datatype EpisodeItem = EpisodeItem(href: string, typeText: string, nameText: string)

  const SLUG_MARK: string := "episode-"
  const NUMBER_MARK: string := "Episode "
  const NAME_JOIN: string := " Episode: "

  /** The text the episode number is read from: what follows "Episode ", or the whole text without it. */
  function NumberText(nameText: string): string
  {
    SubstringAfter(nameText, NUMBER_MARK)
  }

  /** `episodeFromElement`: an empty number text gives 1, any other must read as a float. */
  function EpisodeFromElement(e: EpisodeItem): (r: Result<Episode>)
    ensures r.Success? <==> NumberText(e.nameText) == "" || PlainDecimal(NumberText(e.nameText))
    ensures r.Success? ==> r.value.url == e.href && r.value.number.Some?
    ensures r.Success? && NumberText(e.nameText) == "" ==> r.value.number == Some("1")
  {
    var name := e.typeText + NAME_JOIN + SubstringAfter(e.nameText, SLUG_MARK);
    var epNum := NumberText(e.nameText);
    var number := if epNum != "" then ToFloat(epNum) else Success("1");
    match number
    case Failure(err) => Failure(err)
    case Success(n) => Success(Episode(e.href, name, Some(n)))
  }

  /**
   * A name text `<pre>Episode <n>` with `n` a plain number, and no "episode-"
   * in it, gives an episode named `<type> Episode: <name text>` numbered `n`.
   */
  lemma NumberedEpisode(href: string, typeText: string, pre: string, n: string)
    requires FirstAtEnd(pre, NUMBER_MARK) && PlainDecimal(n) && !Contains(pre + NUMBER_MARK + n, SLUG_MARK)
    ensures EpisodeFromElement(EpisodeItem(href, typeText, pre + NUMBER_MARK + n))
      == Success(Episode(href, typeText + NAME_JOIN + pre + NUMBER_MARK + n, Some(n)))
  {
    var text := pre + NUMBER_MARK + n;
    FirstOccurrence(pre, NUMBER_MARK, n);
    assert NumberText(text) == n;
    assert ToFloat(n) == Success(n);
    MissingDelimiter(text, SLUG_MARK);
    assert SubstringAfter(text, SLUG_MARK) == text;
    var i :| 0 <= i < |n| && IsAsciiDigit(n[i]);
    assert NumberText(text) != "";
    assert typeText + NAME_JOIN + text == typeText + NAME_JOIN + pre + NUMBER_MARK + n;
  }

  /** An item whose name text ends right after "Episode " is episode 1. */
  lemma EmptyNumberIsOne(href: string, typeText: string, pre: string)
    requires FirstAtEnd(pre, NUMBER_MARK)
    ensures EpisodeFromElement(EpisodeItem(href, typeText, pre + NUMBER_MARK)).value.number == Some("1")
  {
    FirstOccurrence(pre, NUMBER_MARK, "");
    assert pre + NUMBER_MARK + "" == pre + NUMBER_MARK;
  }

  /**
   * The name keeps only what follows the first "episode-" of the name text:
   * a slug `<pre>episode-<rest>` names the episode `<type> Episode: <rest>`.
   */
  lemma SlugName(e: EpisodeItem, pre: string, rest: string)
    requires FirstAtEnd(pre, SLUG_MARK) && e.nameText == pre + SLUG_MARK + rest
    requires EpisodeFromElement(e).Success?
    ensures EpisodeFromElement(e).value.name == e.typeText + NAME_JOIN + rest
  {
    FirstOccurrence(pre, SLUG_MARK, rest);
  }

  // ---------------------------------------------------------------------
  // Search
  // ---------------------------------------------------------------------

  /** The `query` of each entry of the "Drame Type" select; index 0 is "Select". */
  const TYPE_QUERIES: seq<string> := ["", "", "recently-added-raw", "movies", "kshow", "ongoing-series"]

  /** The text in front of `?keyword=` in a keyword search URL. */
  const SEARCH_PAGE: string := BASE_URL + "/search.html"

  /**
   * `searchAnimeRequest`: a non-blank query searches by keyword; otherwise
   * the first type select set above 0 lists its page, and with none the
   * request throws "Choose Filter". The type select is the sheet's only
   * select and is modelled by `CategoryList`.
   */
  function SearchUrl(page: int, query: string, filters: seq<Filter>): (r: Result<string>)
    ensures !IsBlank(query) ==> r.Success?
    ensures IsBlank(query) && ChosenCategory(filters).None? ==> r == Failure("Choose Filter")
    ensures IsBlank(query) && ChosenCategory(filters).Some? ==>
      (r.Success? <==> ChosenCategory(filters).value < |TYPE_QUERIES|)
  {
    if !IsBlank(query) then Success(SEARCH_PAGE + "?keyword=" + query + "&page=" + IntToString(page))
    else
      match ChosenCategory(filters)
      case None => Failure("Choose Filter")
      case Some(t) =>
        if t < |TYPE_QUERIES| then Success(BASE_URL + "/" + TYPE_QUERIES[t] + "?page=" + IntToString(page))
        else Failure("IndexOutOfBoundsException")
  }

  /** The keyword parameter carries the query as typed, when it has no `&`. */
  lemma KeywordReadBack(page: int, query: string, filters: seq<Filter>)
    requires !IsBlank(query) && '&' !in query
    ensures SubstringBefore(SubstringAfter(SearchUrl(page, query, filters).value, "?keyword="), "&page=") == query
  {
    assert '?' !in SEARCH_PAGE;
    FirstAtEndFirstChar(SEARCH_PAGE, "?keyword=");
    FirstAtEndFirstChar(query, "&page=");
    Between(SEARCH_PAGE, "?keyword=", query, "&page=", IntToString(page));
  }

  /**
   * With a blank query the first type select set above 0 decides: its
   * state's path is listed with the page parameter, whatever the selects
   * after it say.
   */
  lemma TypeListing(page: int, query: string, filters: seq<Filter>, k: nat)
    requires IsBlank(query)
    requires k < |filters| && Selected(filters[k]) && forall j :: 0 <= j < k ==> !Selected(filters[j])
    requires filters[k].state < |TYPE_QUERIES|
    ensures SearchUrl(page, query, filters)
      == Success(BASE_URL + "/" + TYPE_QUERIES[filters[k].state] + "?page=" + IntToString(page))
  {
    FirstSelectedWins(filters, k);
  }

  /** "Recently Added Sub" has an empty query: it lists the root path with the page parameter. */
  lemma RecentlyAddedSub(page: int)
    ensures SearchUrl(page, "", [CategoryList(1)]) == Success(BASE_URL + "/?page=" + IntToString(page))
  {
    FirstSelectedWins([CategoryList(1)], 0);
    assert TYPE_QUERIES[1] == "";
    assert BASE_URL + "/" + TYPE_QUERIES[1] + "?page=" == BASE_URL + "/?page=";
  }
}
