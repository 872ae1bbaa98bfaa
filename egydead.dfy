/**
 * EgyDead: the video order, the routing of a server link to an extractor,
 * the recursive episode-list walk over assembly, series, season and episode
 * pages, the status rule and the search request.
 */
module EgyDead {
  import opened Wrappers
  import opened KotlinText
  import opened Media
  import opened Prioritise
  import opened CategorySelect

  const BASE_URL: string := "https://egydead.space"
  const QUALITY_DEFAULT: string := "1080"
  const WATCH_LABEL: string := "مشاهدة"
  const SEASON_WORD: string := "موسم"
  /** "الموسم ": the article, the season word and a space. */
  const SEASON_PREFIX: string := "ال" + SEASON_WORD + " "

  // ---------------------------------------------------------------------
  // Video order
  // ---------------------------------------------------------------------

  /** `List<Video>.sort()`: the stored preference, "1080" when none is stored. */
  function Sort(vs: seq<Video>, stored: Option<string>): seq<Video>
  {
    SortedThenReversed(vs, stored.GetOr(QUALITY_DEFAULT))
  }

  /**
   * The videos are only reordered, those whose quality contains the
   * preference come first, and each group is in reverse input order.
   */
  lemma SortMatchingFirst(vs: seq<Video>, stored: Option<string>)
    ensures var pref := stored.GetOr(QUALITY_DEFAULT);
      var r := Sort(vs, stored);
      multiset(r) == multiset(vs)
      && (forall i, j :: 0 <= i < j < |r| && Contains(r[j].quality, pref) ==> Contains(r[i].quality, pref))
      && r == Reverse(Keep(vs, Test(pref, Substring), true)) + Reverse(Keep(vs, Test(pref, Substring), false))
  {
    var pref := stored.GetOr(QUALITY_DEFAULT);
    SortedThenReversedPermutation(vs, pref);
    SortedThenReversedOrder(vs, pref);
    SortedThenReversedShape(vs, pref);
  }

  // ---------------------------------------------------------------------
  // Server routing
  // ---------------------------------------------------------------------

  datatype Extractor = StreamWish | Dood | MixDrop | NoExtractor

  /** The four host markers of the StreamWish mirrors. */
  predicate StreamWishLink(url: string)
  {
    Contains(url, "gsfqzmqu") || Contains(url, "gsfomqu") || Contains(url, "gsfjzmqu") || Contains(url, "732eg54de642sa")
  }

  /** `extractVideos`: the StreamWish markers first, then "dood", then "mixdrop". */
  function ExtractorFor(url: string): (r: Extractor)
    ensures r == StreamWish <==> StreamWishLink(url)
    ensures r == Dood <==> !StreamWishLink(url) && Contains(url, "dood")
    ensures r == MixDrop <==> !StreamWishLink(url) && !Contains(url, "dood") && Contains(url, "mixdrop")
  {
    if StreamWishLink(url) then StreamWish
    else if Contains(url, "dood") then Dood
    else if Contains(url, "mixdrop") then MixDrop
    else NoExtractor
  }

  /**
   * One `ul.serversList li` element: its `data-link` and what the extractor
   * chosen for it returns (`None` when the extractor throws).
   */
  datatype Server = Server(dataLink: string, extracted: Option<seq<Video>>)

  /** The server's videos; an unrouted link gives the empty list, a throwing extractor `None`. */
  function ServerVideos(s: Server): Option<seq<Video>>
  {
    if ExtractorFor(s.dataLink) == NoExtractor then Some([]) else s.extracted
  }

  function ServerResults(servers: seq<Server>): seq<Option<seq<Video>>>
  {
    seq(|servers|, k requires 0 <= k < |servers| => ServerVideos(servers[k]))
  }

  /** `videoListParse`: the servers' videos in document order, a throwing extractor adding none. */
  function VideoList(servers: seq<Server>): seq<Video>
  {
    FlattenCatching(ServerResults(servers))
  }

  /** Every listed video was returned by the extractor of a routed server. */
  lemma VideoFromRoutedServer(servers: seq<Server>, v: Video)
    requires v in VideoList(servers)
    ensures exists k :: 0 <= k < |servers| && ExtractorFor(servers[k].dataLink) != NoExtractor
                        && servers[k].extracted.Some? && v in servers[k].extracted.value
  {
    var results := ServerResults(servers);
    FlattenFromSuccesses(results, v);
    var k :| 0 <= k < |results| && results[k].Some? && v in results[k].value;
    assert results[k] == ServerVideos(servers[k]);
  }

  /** A link no extractor claims adds nothing, wherever it stands. */
  lemma UnroutedServerSilent(before: seq<Server>, s: Server, after: seq<Server>)
    requires ExtractorFor(s.dataLink) == NoExtractor
    ensures VideoList(before + [s] + after) == VideoList(before) + VideoList(after)
  {
    var all := before + [s] + after;
    assert ServerResults(all) == ServerResults(before) + [ServerVideos(s)] + ServerResults(after) by {
      forall k | 0 <= k < |all|
        ensures ServerResults(all)[k] == (ServerResults(before) + [ServerVideos(s)] + ServerResults(after))[k]
      {
        if k < |before| {
          assert all[k] == before[k];
        } else if k > |before| {
          assert all[k] == after[k - |before| - 1];
        }
      }
    }
    FlattenSilent(ServerResults(before), ServerVideos(s), ServerResults(after));
  }

  // ---------------------------------------------------------------------
  // Episodes
  // ---------------------------------------------------------------------

  /** A `div.EpsList li a` element: its `href` and its text. */
  datatype EpisodeLink = EpisodeLink(href: string, text: string)

  /** A `div.salery-list li.movieItem a` element: its `href` and its `title`. */
  datatype MovieLink = MovieLink(href: string, title: string)

  /**
   * A fetched page: the URL it was requested at, the text of
   * `div.infoBox div.singleTitle`, its episode links, its assembly movies,
   * the `href`s of `div.seasons-list li.movieItem a`, and the `href` of the
   * first breadcrumb link, if any.
   */
  datatype Doc = Doc(url: string, singleTitle: string, episodeLinks: seq<EpisodeLink>, movieLinks: seq<MovieLink>,
                     seasonLinks: seq<string>, breadcrumb: Option<string>)

  /** The episode name on a season page: "الموسم <n> <name>" when the season title has the season word. */
  function SeasonName(season: string, name: string): string
  {
    if Contains(season, SEASON_WORD) then
      SEASON_PREFIX + SubstringBefore(SubstringAfter(season, SEASON_PREFIX), " ") + " " + name
    else name
  }

  /**
   * `episodeFromElement`, and on a season page (`season` is its title) the
   * season-prefixed name.
   */
  function LinkEpisode(l: EpisodeLink, season: Option<string>): (r: Result<Episode>)
    ensures r.Success? <==> DigitsNumber(l.text).Success?
    ensures r.Success? ==> r.value.url == l.href && r.value.number == Some(FilterDigits(l.text))
    ensures r.Success? && season.None? ==> r.value.name == l.text
    ensures r.Success? && season.Some? ==> r.value.name == SeasonName(season.value, l.text)
  {
    var n := DigitsNumber(l.text);
    if n.Failure? then Failure(n.error)
    else
      var name := if season.Some? then SeasonName(season.value, l.text) else l.text;
      Success(Episode(l.href, name, Some(n.value)))
  }

  /** The links in document order; the first that throws ends the list. */
  function LinkEpisodes(links: seq<EpisodeLink>, season: Option<string>): Result<seq<Episode>>
  {
    if |links| == 0 then Success([])
    else
      match LinkEpisodes(links[..|links| - 1], season)
      case Failure(e) => Failure(e)
      case Success(es) =>
        match LinkEpisode(links[|links| - 1], season)
        case Failure(e) => Failure(e)
        case Success(last) => Success(es + [last])
  }

  /** `episodeExtract`: the movie's `href` and `title`, no number. */
  function MovieEpisodes(movies: seq<MovieLink>): (r: seq<Episode>)
    ensures |r| == |movies|
    ensures forall k :: 0 <= k < |movies| ==> r[k] == Episode(movies[k].href, movies[k].title, None)
  {
    seq(|movies|, k requires 0 <= k < |movies| => Episode(movies[k].href, movies[k].title, None))
  }

  /** The page the site serves at `url`; `None` when the request fails. */
  function Fetch(site: map<string, Doc>, url: string): (r: Option<Doc>)
    ensures r.Some? <==> url in site
    ensures r.Some? ==> r.value == site[url]
  {
    if url in site then Some(site[url]) else None
  }

  /** The season pages fetched in order, each read as a season page; a failed fetch throws. */
  function SeasonPages(site: map<string, Doc>, hrefs: seq<string>): Result<seq<Episode>>
  {
    if |hrefs| == 0 then Success([])
    else
      match SeasonPages(site, hrefs[..|hrefs| - 1])
      case Failure(e) => Failure(e)
      case Success(es) =>
        match Fetch(site, hrefs[|hrefs| - 1])
        case None => Failure("IOException")
        case Some(d) => Prepend(es, LinkEpisodes(d.episodeLinks, Some(d.singleTitle)))
  }

  /**
   * `addEpisodes(res, final)`: what one page adds. `site` holds the pages
   * that can be fetched (a URL outside it fails); `hops` bounds the chain of
   * episode pages followed through their breadcrumb.
   */
  function Added(site: map<string, Doc>, doc: Doc, final: bool, hops: nat): Result<seq<Episode>>
    decreases hops, if final then 0 else 1
  {
    if final then LinkEpisodes(doc.episodeLinks, Some(doc.singleTitle))
    else if Contains(doc.url, "assembly") then Success(MovieEpisodes(doc.movieLinks))
    else if Contains(doc.url, "serie") || Contains(doc.url, "season") then
      if |doc.seasonLinks| == 0 then LinkEpisodes(doc.episodeLinks, None)
      else SeasonPages(site, doc.seasonLinks)
    else if Contains(doc.url, "episode") then
      match doc.breadcrumb
      case None => Success([])
      case Some(href) =>
        if hops == 0 then Failure("StackOverflowError")
        else
          match Fetch(site, href)
          case None => Failure("IOException")
          case Some(d) => Added(site, d, false, hops - 1)
    else Success([Episode(doc.url, WATCH_LABEL, None)])
  }

  /** `episodeListParse`. */
  function EpisodeList(site: map<string, Doc>, doc: Doc, hops: nat): Result<seq<Episode>>
  {
    Added(site, doc, false, hops)
  }

  /** `addEpisodes`, appending to the mutable `episodes` list as the source does. */
  method AddEpisodes(site: map<string, Doc>, doc: Doc, final: bool, hops: nat, before: seq<Episode>)
    returns (r: Result<seq<Episode>>)
    ensures r == Prepend(before, Added(site, doc, final, hops))
    decreases hops, if final then 0 else 2
  {
    var episodes := before;
    if final {
      r := AddSeasonPage(doc, episodes);
    } else if Contains(doc.url, "assembly") {
      episodes := episodes + MovieEpisodes(doc.movieLinks);
      r := Success(episodes);
    } else if Contains(doc.url, "serie") || Contains(doc.url, "season") {
      if |doc.seasonLinks| == 0 {
        var mapped := MapEpisodes(doc.episodeLinks);
        if mapped.Failure? {
          return Failure(mapped.error);
        }
        episodes := episodes + mapped.value;
        r := Success(episodes);
      } else {
        r := AddSeasons(site, doc.seasonLinks, hops, episodes);
      }
    } else if Contains(doc.url, "episode") {
      if doc.breadcrumb.Some? {
        if hops == 0 {
          return Failure("StackOverflowError");
        }
        var page := Fetch(site, doc.breadcrumb.value);
        if page.None? {
          return Failure("IOException");
        }
        r := AddEpisodes(site, page.value, false, hops - 1, episodes);
      } else {
        assert episodes + [] == episodes;
        r := Success(episodes);
      }
    } else {
      episodes := episodes + [Episode(doc.url, WATCH_LABEL, None)];
      r := Success(episodes);
    }
  }

  /** The loop over the season links, each page fetched and added as a season page. */
  method AddSeasons(site: map<string, Doc>, hrefs: seq<string>, hops: nat, before: seq<Episode>)
    returns (r: Result<seq<Episode>>)
    ensures r == Prepend(before, SeasonPages(site, hrefs))
    decreases hops, 1
  {
    var episodes := before;
    ghost var done: seq<Episode> := [];
    assert hrefs[..0] == [];
    for i := 0 to |hrefs|
      invariant SeasonPages(site, hrefs[..i]) == Success(done)
      invariant episodes == before + done
    {
      var page := Fetch(site, hrefs[i]);
      if page.None? {
        assert SeasonPages(site, hrefs) == Failure("IOException") by {
          SeasonPagesStep(site, hrefs, i, done);
          SeasonPagesPrefix(site, hrefs, i + 1);
        }
        return Failure("IOException");
      }
      var added := AddEpisodes(site, page.value, true, hops, episodes);
      ghost var more := LinkEpisodes(page.value.episodeLinks, Some(page.value.singleTitle));
      assert Added(site, page.value, true, hops) == more;
      if added.Failure? {
        assert SeasonPages(site, hrefs) == Failure(added.error) by {
          SeasonPagesStep(site, hrefs, i, done);
          SeasonPagesPrefix(site, hrefs, i + 1);
        }
        return added;
      }
      assert SeasonPages(site, hrefs[..i + 1]) == Success(done + more.value) by {
        SeasonPagesStep(site, hrefs, i, done);
      }
      assert added.value == before + (done + more.value);
      episodes := added.value;
      done := done + more.value;
    }
    assert hrefs[..|hrefs|] == hrefs;
    r := Success(episodes);
  }

  /** One more season link: its page's episodes after the earlier ones, or the failure to fetch it. */
  lemma SeasonPagesStep(site: map<string, Doc>, hrefs: seq<string>, i: nat, done: seq<Episode>)
    requires i < |hrefs| && SeasonPages(site, hrefs[..i]) == Success(done)
    ensures Fetch(site, hrefs[i]).None? ==> SeasonPages(site, hrefs[..i + 1]) == Failure("IOException")
    ensures Fetch(site, hrefs[i]).Some? ==> var d := Fetch(site, hrefs[i]).value;
      SeasonPages(site, hrefs[..i + 1]) == Prepend(done, LinkEpisodes(d.episodeLinks, Some(d.singleTitle)))
  {
    assert hrefs[..i + 1][..i] == hrefs[..i];
  }

  /** The `final` pass over a season page: each link named with the page's season. */
  method AddSeasonPage(doc: Doc, before: seq<Episode>) returns (r: Result<seq<Episode>>)
    ensures r == Prepend(before, LinkEpisodes(doc.episodeLinks, Some(doc.singleTitle)))
  {
    var links := doc.episodeLinks;
    var episodes := before;
    assert links[..0] == [];
    assert before + [] == before;
    for i := 0 to |links|
      invariant LinkEpisodes(links[..i], Some(doc.singleTitle)).Success?
      invariant episodes == before + LinkEpisodes(links[..i], Some(doc.singleTitle)).value
    {
      assert links[..i + 1][..i] == links[..i];
      var episode := LinkEpisode(links[i], None);
      if episode.Failure? {
        LinkEpisodesPrefix(links, i + 1, Some(doc.singleTitle));
        return Failure(episode.error);
      }
      var season := doc.singleTitle;
      var seasonTxt := SubstringBefore(SubstringAfter(season, SEASON_PREFIX), " ");
      var e := episode.value;
      if Contains(season, SEASON_WORD) {
        e := e.(name := SEASON_PREFIX + seasonTxt + " " + e.name);
      }
      episodes := episodes + [e];
    }
    assert links[..|links|] == links;
    r := Success(episodes);
  }

  /** `document.select(episodeListSelector()).map(::episodeFromElement)`. */
  method MapEpisodes(links: seq<EpisodeLink>) returns (r: Result<seq<Episode>>)
    ensures r == LinkEpisodes(links, None)
  {
    var mapped: seq<Episode> := [];
    assert links[..0] == [];
    for i := 0 to |links|
      invariant LinkEpisodes(links[..i], None) == Success(mapped)
    {
      assert links[..i + 1][..i] == links[..i];
      var episode := LinkEpisode(links[i], None);
      if episode.Failure? {
        LinkEpisodesPrefix(links, i + 1, None);
        return Failure(episode.error);
      }
      mapped := mapped + [episode.value];
    }
    assert links[..|links|] == links;
    r := Success(mapped);
  }

  /** Once a prefix of the links throws, the whole list throws the same. */
  lemma {:induction false} LinkEpisodesPrefix(links: seq<EpisodeLink>, i: nat, season: Option<string>)
    requires i <= |links| && LinkEpisodes(links[..i], season).Failure?
    ensures LinkEpisodes(links, season) == LinkEpisodes(links[..i], season)
    decreases |links| - i
  {
    if i == |links| {
      assert links[..i] == links;
    } else {
      var front := links[..|links| - 1];
      assert front[..i] == links[..i];
      LinkEpisodesPrefix(front, i, season);
    }
  }

  lemma {:induction false} SeasonPagesPrefix(site: map<string, Doc>, hrefs: seq<string>, i: nat)
    requires i <= |hrefs| && SeasonPages(site, hrefs[..i]).Failure?
    ensures SeasonPages(site, hrefs) == SeasonPages(site, hrefs[..i])
    decreases |hrefs| - i
  {
    if i == |hrefs| {
      assert hrefs[..i] == hrefs;
    } else {
      var front := hrefs[..|hrefs| - 1];
      assert front[..i] == hrefs[..i];
      SeasonPagesPrefix(site, front, i);
    }
  }

  /** The links read without failure exactly when every link's text has a digit. */
  lemma {:induction false} LinkEpisodesOutcome(links: seq<EpisodeLink>, season: Option<string>)
    ensures LinkEpisodes(links, season).Success? <==> forall k :: 0 <= k < |links| ==> DigitsNumber(links[k].text).Success?
  {
    if |links| > 0 {
      var front := links[..|links| - 1];
      LinkEpisodesOutcome(front, season);
      if LinkEpisodes(links, season).Success? {
        forall k | 0 <= k < |links|
          ensures DigitsNumber(links[k].text).Success?
        {
          if k < |front| {
            assert links[k] == front[k];
          }
        }
      } else if LinkEpisodes(front, season).Failure? {
        var k :| 0 <= k < |front| && DigitsNumber(front[k].text).Failure?;
        assert links[k] == front[k];
      }
    }
  }

  /** A successful read has one episode per link, the `k`-th being the `k`-th link's. */
  lemma {:induction false} LinkEpisodeAt(links: seq<EpisodeLink>, season: Option<string>, k: nat)
    requires k < |links| && LinkEpisodes(links, season).Success?
    ensures |LinkEpisodes(links, season).value| == |links| && LinkEpisode(links[k], season).Success?
    ensures LinkEpisodes(links, season).value[k] == LinkEpisode(links[k], season).value
    decreases |links|
  {
    var front := links[..|links| - 1];
    var es := LinkEpisodes(front, season).value;
    assert LinkEpisodes(links, season).value == es + [LinkEpisode(links[|links| - 1], season).value];
    if k < |front| {
      LinkEpisodeAt(front, season, k);
      assert links[k] == front[k];
    } else if |front| > 0 {
      LinkEpisodeAt(front, season, 0);
    }
  }

  /**
   * On a season page whose title reads `<pre>الموسم <w> <post>` (the first
   * "الموسم " right after `pre`, `w` a single word), every episode is named
   * "الموسم <w> <link text>".
   */
  lemma SeasonNameWord(pre: string, w: string, post: string, name: string)
    requires FirstAtEnd(pre, SEASON_PREFIX) && ' ' !in w
    ensures SeasonName(pre + SEASON_PREFIX + w + " " + post, name) == SEASON_PREFIX + w + " " + name
  {
    var season := pre + SEASON_PREFIX + w + " " + post;
    var rest := w + " " + post;
    assert season == pre + SEASON_PREFIX + rest;
    FirstOccurrence(pre, SEASON_PREFIX, rest);
    FirstAtEndChar(w, ' ');
    FirstOccurrence(w, " ", post);
    assert OccursAt(season, SEASON_WORD, |pre| + 2) by {
      assert season[|pre| + 2..|pre| + 2 + |SEASON_WORD|] == SEASON_PREFIX[2..2 + |SEASON_WORD|];
    }
    OccursAtContains(season, SEASON_WORD, |pre| + 2);
  }

  /** A season title without the season word leaves the names as the links give them. */
  lemma PlainSeasonTitle(season: string, name: string)
    requires !Contains(season, SEASON_WORD)
    ensures SeasonName(season, name) == name
  {
  }

  /** A page that is none of assembly, series, season or episode is one "مشاهدة" episode at its own URL. */
  lemma FallbackEpisode(site: map<string, Doc>, doc: Doc, hops: nat)
    requires !Contains(doc.url, "assembly") && !Contains(doc.url, "serie")
    requires !Contains(doc.url, "season") && !Contains(doc.url, "episode")
    ensures EpisodeList(site, doc, hops) == Success([Episode(doc.url, WATCH_LABEL, None)])
  {
  }

  /** An episode page is read as the page its breadcrumb links to. */
  lemma EpisodeFollowsBreadcrumb(site: map<string, Doc>, doc: Doc, hops: nat, parent: Doc)
    requires !Contains(doc.url, "assembly") && !Contains(doc.url, "serie") && !Contains(doc.url, "season")
    requires Contains(doc.url, "episode") && doc.breadcrumb.Some? && Fetch(site, doc.breadcrumb.value) == Some(parent)
    ensures EpisodeList(site, doc, hops + 1) == EpisodeList(site, parent, hops)
  {
  }

  // ---------------------------------------------------------------------
  // Details
  // ---------------------------------------------------------------------

  const COMPLETE_WORD: string := "كامل"
  const MOVIE_WORD: string := "فيلم"

  /** `animeDetailsParse`: completed when the title has "كامل" or "فيلم", otherwise ongoing. */
  function AnimeStatus(title: string): (r: Status)
    ensures r == Completed || r == Ongoing
  {
    if Contains(title, COMPLETE_WORD) || Contains(title, MOVIE_WORD) then Completed else Ongoing
  }

  /** Either word anywhere in the title makes it completed. */
  lemma CompletedMarkers(pre: string, post: string)
    ensures AnimeStatus(pre + COMPLETE_WORD + post) == Completed
    ensures AnimeStatus(pre + MOVIE_WORD + post) == Completed
  {
    var a := pre + COMPLETE_WORD + post;
    assert a[|pre|..|pre| + |COMPLETE_WORD|] == COMPLETE_WORD;
    OccursAtContains(a, COMPLETE_WORD, |pre|);
    var b := pre + MOVIE_WORD + post;
    assert b[|pre|..|pre| + |MOVIE_WORD|] == MOVIE_WORD;
    OccursAtContains(b, MOVIE_WORD, |pre|);
  }

  // ---------------------------------------------------------------------
  // Search
  // ---------------------------------------------------------------------

  /** The `query` of each category (`getCategoryList()`); index 0 is "choose". */
  const CATEGORY_QUERIES: seq<string> := [
    "",
    "category/افلام-اجنبي",
    "category/ترجمات-اسلام-الجيزاوي",
    "category/افلام-كرتون",
    "category/افلام-تركية",
    "category/افلام-اسيوية",
    "category/افلام-اجنبية-مدبلجة",
    "assembly",
    "series-category/مسلسلات-اجنبي",
    "series-category/مسلسلات-انمي",
    "series-category/مسلسلات-تركية",
    "series-category/مسلسلات-اسيوية",
    "series-category/مسلسلات-لاتينية",
    "serie",
    "season"
  ]

  /**
   * With a blank query the first category select set above 0 decides: its
   * state's path is listed at the page, whatever the selects after it say.
   */
  lemma CategoryListing(page: int, query: string, filters: seq<Filter>, k: nat)
    requires IsBlank(query)
    requires k < |filters| && Selected(filters[k]) && forall j :: 0 <= j < k ==> !Selected(filters[j])
    requires filters[k].state < |CATEGORY_QUERIES|
    ensures SearchUrl(page, query, filters)
      == Success(BASE_URL + "/" + CATEGORY_QUERIES[filters[k].state] + "/?page=" + IntToString(page) + "/")
  {
    FirstSelectedWins(filters, k);
  }

  /** The text before `?s=` in a query search URL. */
  function QueryPrefix(page: int): string
  {
    BASE_URL + "/page/" + IntToString(page) + "/"
  }

  /**
   * `searchAnimeRequest`: a non-blank query searches, otherwise the first
   * category set above 0 lists its page, otherwise the home page; a state
   * past the table's end throws.
   */
  function SearchUrl(page: int, query: string, filters: seq<Filter>): (r: Result<string>)
    ensures !IsBlank(query) ==> r.Success?
    ensures IsBlank(query) ==> (r.Failure? <==> ChosenCategory(filters).Some? && ChosenCategory(filters).value >= |CATEGORY_QUERIES|)
    ensures IsBlank(query) && ChosenCategory(filters).None? ==> r == Success(BASE_URL)
  {
    if !IsBlank(query) then Success(QueryPrefix(page) + "?s=" + query)
    else
      match ChosenCategory(filters)
      case None => Success(BASE_URL)
      case Some(c) =>
        if c < |CATEGORY_QUERIES| then Success(BASE_URL + "/" + CATEGORY_QUERIES[c] + "/?page=" + IntToString(page) + "/")
        else Failure("IndexOutOfBoundsException")
  }

  lemma NoQuestionMark(page: int)
    ensures '?' !in QueryPrefix(page)
  {
    var t := IntToString(page);
    var n: nat := if page < 0 then -page else page;
    NatTextAscii(n);
    assert t == if page < 0 then "-" + IntToString(n) else IntToString(n);
    forall k | 0 <= k < |t|
      ensures t[k] != '?'
    {
      if page < 0 && k > 0 {
        assert t[k] == IntToString(n)[k - 1];
      }
    }
    var p := QueryPrefix(page);
    var a := BASE_URL + "/page/";
    assert '?' !in a;
    assert p == a + t + "/";
    forall k | 0 <= k < |p|
      ensures p[k] != '?'
    {
      if k < |a| {
        assert p[k] == a[k];
      } else if k < |a| + |t| {
        assert p[k] == t[k - |a|];
      }
    }
  }

  /** The text after `?s=` in the search URL is the query as typed, whatever the filters. */
  lemma QueryReadBack(page: int, query: string, filters: seq<Filter>)
    requires !IsBlank(query)
    ensures SubstringAfter(SearchUrl(page, query, filters).value, "?s=") == query
    ensures SubstringBefore(SearchUrl(page, query, filters).value, "?s=") == QueryPrefix(page)
  {
    NoQuestionMark(page);
    FirstAtEndFirstChar(QueryPrefix(page), "?s=");
    FirstOccurrence(QueryPrefix(page), "?s=", query);
  }
}
