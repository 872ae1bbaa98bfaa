/**
 * ArabLionz: the inline player-script parser, the popular-list exclusion
 * filter, the episode-list precedence and the server routing.
 */
module ArabLionz {
  import opened Wrappers
  import opened KotlinText
  import opened Media
  import VidBom

  // ---------------------------------------------------------------------
  // Inline `videosFromUrl`
  // ---------------------------------------------------------------------

  /** The entry's label, replaced by "480p" when longer than 15 characters. */
  function Label(entry: string): (r: string)
    ensures |VidBom.EntryLabel(entry)| > 15 ==> r == "480p"
    ensures |VidBom.EntryLabel(entry)| <= 15 ==> r == VidBom.EntryLabel(entry)
    ensures |r| <= 15
  {
    var quality := VidBom.EntryLabel(entry);
    if |quality| > 15 then "480p" else quality
  }

  function EntryVideo(host: string, entry: string): Video
  {
    var src := VidBom.EntryFile(entry);
    Video(src, Capitalize(host) + ": " + Label(entry), src)
  }

  function EntryVideos(host: string, entries: seq<string>): (r: seq<Video>)
    ensures |r| == |entries|
    ensures forall k :: 0 <= k < |entries| ==> r[k] == EntryVideo(host, entries[k])
  {
    if |entries| == 0 then [] else [EntryVideo(host, entries[0])] + EntryVideos(host, entries[1..])
  }

  /** The player page's script (`None` when no script mentions `sources`, where `!!` throws). */
  function InlineVideos(script: Option<string>, host: string): (r: Result<seq<Video>>)
    ensures script.None? <==> r.Failure?
    ensures r.Success? ==> |r.value| == |VidBom.SourceEntries(script.value)|
    ensures r.Success? ==> forall k :: 0 <= k < |r.value| ==>
      var e := VidBom.SourceEntries(script.value)[k];
      r.value[k].url == r.value[k].videoUrl == VidBom.EntryFile(e)
      && r.value[k].quality == Capitalize(host) + ": " + Label(e)
  {
    match script
    case None => Failure("NullPointerException")
    case Some(s) => Success(EntryVideos(host, VidBom.SourceEntries(s)))
  }

  /** The label part of every quality is at most 15 characters, and it follows the capitalised host. */
  lemma InlineQualityShape(script: string, host: string)
    ensures var r := InlineVideos(Some(script), host).value;
      forall k :: 0 <= k < |r| ==>
        StartsWith(r[k].quality, Capitalize(host) + ": ")
        && |r[k].quality| <= |host| + 2 + 15
  {
  }

  // ---------------------------------------------------------------------
  // Popular list
  // ---------------------------------------------------------------------

  /** A listed item as extracted from the page: badge text, title, thumbnail, link. */
  datatype Item = Item(badge: string, title: string, thumbnail: string, href: string)

  datatype Anime = Anime(title: string, thumbnail: string, url: string)

  /** The badge matches `اطلب تجربتك|اشترك الأن|Mp3` somewhere. */
  predicate Excluded(badge: string)
  {
    Contains(badge, "اطلب تجربتك") || Contains(badge, "اشترك الأن") || Contains(badge, "Mp3")
  }

  /** The items kept by the popular page, in page order. */
  function KeptAnime(items: seq<Item>): seq<Anime>
  {
    if |items| == 0 then []
    else
      var it := items[|items| - 1];
      KeptAnime(items[..|items| - 1]) + (if Excluded(it.badge) then [] else [Anime(it.title, it.thumbnail, it.href)])
  }

  method PopularAnimeParse(items: seq<Item>, nextPageMatched: bool) returns (animeList: seq<Anime>, hasNextPage: bool)
    ensures animeList == KeptAnime(items)
    ensures hasNextPage == nextPageMatched
  {
    animeList := [];
    for i := 0 to |items|
      invariant animeList == KeptAnime(items[..i])
    {
      assert items[..i + 1][..i] == items[..i];
      var it := items[i];
      if !Excluded(it.badge) {
        animeList := animeList + [Anime(it.title, it.thumbnail, it.href)];
      }
    }
    assert items[..|items|] == items;
    hasNextPage := nextPageMatched;
  }

  lemma {:induction false} KeptAnimeAppend(a: seq<Item>, b: seq<Item>)
    ensures KeptAnime(a + b) == KeptAnime(a) + KeptAnime(b)
    decreases |b|
  {
    if |b| == 0 {
      assert a + b == a;
    } else {
      assert (a + b)[..|a + b| - 1] == a + b[..|b| - 1];
      KeptAnimeAppend(a, b[..|b| - 1]);
    }
  }

  /** An item is listed exactly when its badge carries none of the three excluded phrases. */
  lemma KeptIffNotExcluded(before: seq<Item>, it: Item, after: seq<Item>)
    ensures KeptAnime(before + [it] + after)
      == KeptAnime(before) + (if Excluded(it.badge) then [] else [Anime(it.title, it.thumbnail, it.href)]) + KeptAnime(after)
  {
    KeptAnimeAppend(before + [it], after);
    KeptAnimeAppend(before, [it]);
  }

  // ---------------------------------------------------------------------
  // Episode list
  // ---------------------------------------------------------------------

  /** A link: its text and its target. */
  datatype Link = Link(text: string, href: string)

  /**
   * A season block: `seasonText` is group 1 of the season-title pattern
   * (`None` when the pattern does not match) and `episodes` the links its
   * season page lists.
   */
  datatype Season = Season(seasonText: Option<string>, episodes: seq<Link>)

  function SeasonEpisode(seasonText: string, ep: Link): Result<Episode>
  {
    var n := DigitsNumber(ep.text);
    if n.Failure? then Failure(n.error) else Success(Episode(ep.href, seasonText + " " + ep.text, Some(n.value)))
  }

  function LinkEpisode(ep: Link): Result<Episode>
  {
    var n := DigitsNumber(ep.text);
    if n.Failure? then Failure(n.error) else Success(Episode(ep.href, ep.text, Some(n.value)))
  }

  /** The episodes of one season; a season with episodes but no season text throws. */
  function SeasonEpisodes(s: Season, k: nat): Result<seq<Episode>>
    requires k <= |s.episodes|
    decreases |s.episodes| - k
  {
    if k == |s.episodes| then Success([])
    else if s.seasonText.None? then Failure("NullPointerException")
    else
      var e := SeasonEpisode(s.seasonText.value, s.episodes[k]);
      var rest := SeasonEpisodes(s, k + 1);
      if e.Failure? then Failure(e.error)
      else if rest.Failure? then rest
      else Success([e.value] + rest.value)
  }

  function AllSeasons(seasons: seq<Season>, k: nat): Result<seq<Episode>>
    requires k <= |seasons|
    decreases |seasons| - k
  {
    if k == |seasons| then Success([])
    else
      var here := SeasonEpisodes(seasons[k], 0);
      var rest := AllSeasons(seasons, k + 1);
      if here.Failure? then here
      else if rest.Failure? then rest
      else Success(here.value + rest.value)
  }

  function AllLinks(links: seq<Link>, k: nat): Result<seq<Episode>>
    requires k <= |links|
    decreases |links| - k
  {
    if k == |links| then Success([])
    else
      var e := LinkEpisode(links[k]);
      var rest := AllLinks(links, k + 1);
      if e.Failure? then Failure(e.error)
      else if rest.Failure? then rest
      else Success([e.value] + rest.value)
  }

  /** Season blocks win over plain episode links, which win over the single watch entry. */
  function EpisodeList(seasons: seq<Season>, links: seq<Link>, pageUrl: string): (r: Result<seq<Episode>>)
    ensures |seasons| == 0 && |links| == 0 ==> r == Success([Episode(pageUrl, "مشاهدة", None)])
  {
    if |seasons| > 0 then AllSeasons(seasons, 0)
    else if |links| > 0 then AllLinks(links, 0)
    else Success([Episode(pageUrl, "مشاهدة", None)])
  }

  /** The episode list, built by appending season by season and link by link. */
  method EpisodeListParse(seasons: seq<Season>, links: seq<Link>, pageUrl: string) returns (r: Result<seq<Episode>>)
    ensures r == EpisodeList(seasons, links, pageUrl)
  {
    if |seasons| > 0 {
      var i := |seasons|;
      r := Success([]);
      while i > 0
        invariant 0 <= i <= |seasons|
        invariant r == AllSeasons(seasons, i)
      {
        i := i - 1;
        var here := SeasonOf(seasons[i]);
        if here.Failure? {
          r := here;
        } else if r.Success? {
          r := Success(here.value + r.value);
        }
      }
    } else if |links| > 0 {
      var i := |links|;
      r := Success([]);
      while i > 0
        invariant 0 <= i <= |links|
        invariant r == AllLinks(links, i)
      {
        i := i - 1;
        var e := LinkEpisode(links[i]);
        if e.Failure? {
          r := Failure(e.error);
        } else if r.Success? {
          r := Success([e.value] + r.value);
        }
      }
    } else {
      r := Success([Episode(pageUrl, "مشاهدة", None)]);
    }
  }

  /** The episodes of a season from its `k`-th link on: one per link, named after the season text. */
  lemma {:induction false} SeasonEpisodeAt(s: Season, k: nat, j: nat)
    requires k <= j < |s.episodes| && SeasonEpisodes(s, k).Success?
    ensures s.seasonText.Some? && SeasonEpisode(s.seasonText.value, s.episodes[j]).Success?
    ensures |SeasonEpisodes(s, k).value| == |s.episodes| - k
    ensures SeasonEpisodes(s, k).value[j - k] == SeasonEpisode(s.seasonText.value, s.episodes[j]).value
    decreases |s.episodes| - k
  {
    if j > k {
      SeasonEpisodeAt(s, k + 1, j);
    } else if k + 1 < |s.episodes| {
      SeasonEpisodeAt(s, k + 1, k + 1);
    }
  }

  /** The plain episode links from the `k`-th on: one episode per link. */
  lemma {:induction false} LinkEpisodeAt(links: seq<Link>, k: nat, j: nat)
    requires k <= j < |links| && AllLinks(links, k).Success?
    ensures LinkEpisode(links[j]).Success?
    ensures |AllLinks(links, k).value| == |links| - k
    ensures AllLinks(links, k).value[j - k] == LinkEpisode(links[j]).value
    decreases |links| - k
  {
    if j > k {
      LinkEpisodeAt(links, k + 1, j);
    } else if k + 1 < |links| {
      LinkEpisodeAt(links, k + 1, k + 1);
    }
  }

  /**
   * A page with one season block lists that season's links, named
   * "<season text> <link text>" and numbered by the text's digits; the
   * plain episode links of the page are not read.
   */
  lemma SeasonBlockWins(s: Season, links: seq<Link>, pageUrl: string, j: nat)
    requires j < |s.episodes| && EpisodeList([s], links, pageUrl).Success?
    ensures EpisodeList([s], links, pageUrl) == EpisodeList([s], [], pageUrl)
    ensures s.seasonText.Some? && DigitsNumber(s.episodes[j].text).Success?
    ensures var r := EpisodeList([s], links, pageUrl).value;
      |r| == |s.episodes|
      && r[j] == Episode(s.episodes[j].href, s.seasonText.value + " " + s.episodes[j].text, Some(FilterDigits(s.episodes[j].text)))
  {
    assert AllSeasons([s], 1) == Success([]);
    assert SeasonEpisodes(s, 0).Success?;
    SeasonEpisodeAt(s, 0, j);
  }

  /**
   * Without season blocks the episode links are listed, each named by its
   * own text and numbered by its digits; a link without a digit throws.
   */
  lemma EpisodeLinksListed(links: seq<Link>, pageUrl: string, j: nat)
    requires j < |links|
    ensures EpisodeList([], links, pageUrl).Success? ==>
      |EpisodeList([], links, pageUrl).value| == |links|
      && EpisodeList([], links, pageUrl).value[j] == Episode(links[j].href, links[j].text, Some(FilterDigits(links[j].text)))
    ensures DigitsNumber(links[j].text).Failure? ==> EpisodeList([], links, pageUrl).Failure?
  {
    if EpisodeList([], links, pageUrl).Success? {
      LinkEpisodeAt(links, 0, j);
    }
  }

  method SeasonOf(s: Season) returns (r: Result<seq<Episode>>)
    ensures r == SeasonEpisodes(s, 0)
  {
    var i := |s.episodes|;
    r := Success([]);
    while i > 0
      invariant 0 <= i <= |s.episodes|
      invariant r == SeasonEpisodes(s, i)
    {
      i := i - 1;
      if s.seasonText.None? {
        r := Failure("NullPointerException");
      } else {
        var e := SeasonEpisode(s.seasonText.value, s.episodes[i]);
        if e.Failure? {
          r := Failure(e.error);
        } else if r.Success? {
          r := Success([e.value] + r.value);
        }
      }
    }
  }

  // ---------------------------------------------------------------------
  // Servers
  // ---------------------------------------------------------------------

  datatype Route = VidBomHost(host: string) | OkRu | MixDrop | NoRoute

  /** `vidbomHost` is group 1 of the VidBom host pattern when it matches the iframe URL. */
  function RouteOf(iframeUrl: string, vidbomHost: Option<string>): (r: Route)
    ensures vidbomHost.Some? ==> r == VidBomHost(vidbomHost.value)
    ensures vidbomHost.None? && Contains(iframeUrl, "ok") ==> r == OkRu
    ensures vidbomHost.None? && !Contains(iframeUrl, "ok") && Contains(iframeUrl, "mixdrop") ==> r == MixDrop
    ensures r == NoRoute <==> vidbomHost.None? && !Contains(iframeUrl, "ok") && !Contains(iframeUrl, "mixdrop")
  {
    if vidbomHost.Some? then VidBomHost(vidbomHost.value)
    else if Contains(iframeUrl, "ok") then OkRu
    else if Contains(iframeUrl, "mixdrop") then MixDrop
    else NoRoute
  }

  /**
   * One server: its iframe URL, the VidBom pattern's host group, the player
   * script fetched for a VidBom host, and what the ok.ru or MixDrop
   * extractor returned (`None` when it threw).
   */
  datatype Server = Server(iframeUrl: string, vidbomHost: Option<string>, script: Option<string>, external: Option<seq<Video>>)

  /** One server's contribution; `None` stands for an exception, which the caller turns into nothing. */
  function ServerVideos(s: Server): Option<seq<Video>>
  {
    match RouteOf(s.iframeUrl, s.vidbomHost)
    case VidBomHost(host) =>
      var r := InlineVideos(s.script, host);
      if r.Failure? then None else Some(r.value)
    case OkRu => s.external
    case MixDrop => s.external
    case NoRoute => Some([])
  }

  function ServerResults(servers: seq<Server>): (r: seq<Option<seq<Video>>>)
    ensures |r| == |servers|
    ensures forall k :: 0 <= k < |servers| ==> r[k] == ServerVideos(servers[k])
  {
    if |servers| == 0 then [] else [ServerVideos(servers[0])] + ServerResults(servers[1..])
  }

  /** `videoListParse`: every server's videos in server order, failures contributing nothing. */
  function VideoList(servers: seq<Server>): seq<Video>
  {
    FlattenCatching(ServerResults(servers))
  }

  lemma ServerResultsAppend(a: seq<Server>, b: seq<Server>)
    ensures ServerResults(a + b) == ServerResults(a) + ServerResults(b)
  {
    var l := ServerResults(a + b);
    var r := ServerResults(a) + ServerResults(b);
    assert |l| == |r|;
    forall k | 0 <= k < |l|
      ensures l[k] == r[k]
    {
      if k < |a| {
        assert (a + b)[k] == a[k];
      } else {
        assert (a + b)[k] == b[k - |a|];
      }
    }
  }

  /** A server that matches no route, or whose extraction throws, adds no video. */
  lemma SilentServer(before: seq<Server>, s: Server, after: seq<Server>)
    requires RouteOf(s.iframeUrl, s.vidbomHost) == NoRoute || ServerVideos(s) == None
    ensures VideoList(before + [s] + after) == VideoList(before) + VideoList(after)
  {
    ServerResultsAppend(before + [s], after);
    ServerResultsAppend(before, [s]);
    assert ServerResults([s]) == [ServerVideos(s)];
    FlattenSilent(ServerResults(before), ServerVideos(s), ServerResults(after));
  }
}
