/**
 * Shahid4U: the video order, the episode list built by `addEpisodeNew`, the
 * search-result link, and the search, latest and quality-preference values.
 */
module Shahid4U {
  import opened Wrappers
  import opened KotlinText
  import opened Media
  import opened Prioritise
  import opened CategorySelect

  const QUALITY_DEFAULT: string := "1080"
  const QUALITY_ENTRIES: seq<string> := ["1080p", "720p", "480p", "360p", "240p"]
  const WATCH: string := "watch/"
  const WATCH_LABEL: string := "مشاهدة"
  const MOVIE_WORD: string := "فيلم"
  const ASSEMBLIES: string := "assemblies"

  // ---------------------------------------------------------------------
  // Video order and the quality preference
  // ---------------------------------------------------------------------

  /** `List<Video>.sort()`: the stored preference, "1080" when none is stored. */
  function Sort(vs: seq<Video>, stored: Option<string>): seq<Video>
  {
    SortedThenReversed(vs, stored.GetOr(QUALITY_DEFAULT))
  }

  /**
   * The videos are only reordered, every video whose label contains the
   * preference comes first, and each group is in reverse input order.
   */
  lemma SortMatchingFirst(vs: seq<Video>, stored: Option<string>)
    ensures var pref := stored.GetOr(QUALITY_DEFAULT);
      var r := Sort(vs, stored);
      multiset(r) == multiset(vs)
      && (forall i, j :: 0 <= i < j < |r| && Contains(r[j].quality, pref) ==> Contains(r[i].quality, pref))
      && r == Reverse(Keep(vs, Test(pref, Substring), true)) + Reverse(Keep(vs, Test(pref, Substring), false))
  {
    var pref := stored.GetOr(QUALITY_DEFAULT);
    SortedThenReversedPermutation(vs, pref);
    SortedThenReversedOrder(vs, pref);
    SortedThenReversedShape(vs, pref);
  }

  /** The `entryValues` of the quality list: each entry without its "p". */
  function EntryValues(): (r: seq<string>)
    ensures |r| == |QUALITY_ENTRIES|
  {
    seq(|QUALITY_ENTRIES|, k requires 0 <= k < |QUALITY_ENTRIES| => Replace(QUALITY_ENTRIES[k], "p", ""))
  }

  /** Dropping the "p" of `<d>p` gives `<d>` when `d` has no "p". */
  lemma DropP(d: string)
    requires 'p' !in d
    ensures Replace(d + "p", "p", "") == d
  {
    FirstAtEndChar(d, 'p');
    FirstOccurrence(d, "p", "");
    assert (d + "p")[|d| + 1..] == "";
  }

  /** Each stored value is its entry without the final "p", and the default is the first of them. */
  lemma EntryValuesAreNumbers()
    ensures forall k :: 0 <= k < |QUALITY_ENTRIES| ==> EntryValues()[k] + "p" == QUALITY_ENTRIES[k]
    ensures EntryValues()[0] == QUALITY_DEFAULT
  {
    forall k | 0 <= k < |QUALITY_ENTRIES|
      ensures EntryValues()[k] + "p" == QUALITY_ENTRIES[k]
    {
      var e := QUALITY_ENTRIES[k];
      var d := e[..|e| - 1];
      assert e == d + "p";
      assert 'p' !in d;
      DropP(d);
    }
    DropP("1080");
    assert QUALITY_ENTRIES[0] == "1080" + "p";
  }

  // ---------------------------------------------------------------------
  // Episodes
  // ---------------------------------------------------------------------

  /** The `type` argument of `addEpisodeNew`. */
  datatype EpisodeKind = Assembly | Movie | Series

  /** A link: its `href` and its text. */
  datatype Link = Link(href: string, text: string)

  /**
   * One season tab: its text, whether it is the active tab, and the links
   * the season request returns (used only for inactive tabs).
   */
  datatype SeasonTab = SeasonTab(text: string, active: bool, fetched: seq<Link>)

  /** The name `addEpisodeNew` gives an episode. */
  function EpisodeName(kind: EpisodeKind, title: string): string
  {
    match kind
    case Assembly => Trim(Replace(title, MOVIE_WORD, ""))
    case Movie => WATCH_LABEL
    case Series => title
  }

  /** Assembly names are trimmed; a movie is "مشاهدة"; a series episode keeps its title. */
  lemma EpisodeNameRules(kind: EpisodeKind, title: string)
    ensures kind == Assembly ==> Trim(EpisodeName(kind, title)) == EpisodeName(kind, title)
    ensures kind == Movie ==> EpisodeName(kind, title) == WATCH_LABEL
    ensures kind == Series ==> EpisodeName(kind, title) == title
  {
    if kind == Assembly {
      TrimIdempotent(Replace(title, MOVIE_WORD, ""));
    }
  }

  function NewEpisode(url: string, kind: EpisodeKind, title: string): Episode
  {
    Episode(url, EpisodeName(kind, title), None)
  }

  /** One episode per link, at the link's `href` followed by `suffix`, named by the `kind` rule. */
  function LinkEpisodes(links: seq<Link>, suffix: string, kind: EpisodeKind): seq<Episode>
  {
    if |links| == 0 then []
    else
      var l := links[|links| - 1];
      LinkEpisodes(links[..|links| - 1], suffix, kind) + [NewEpisode(l.href + suffix, kind, l.text)]
  }

  lemma {:induction false} LinkEpisodeAt(links: seq<Link>, suffix: string, kind: EpisodeKind, k: nat)
    requires k < |links|
    ensures |LinkEpisodes(links, suffix, kind)| == |links|
    ensures LinkEpisodes(links, suffix, kind)[k] == NewEpisode(links[k].href + suffix, kind, links[k].text)
    decreases |links|
  {
    var front := links[..|links| - 1];
    var l := links[|links| - 1];
    var e := NewEpisode(l.href + suffix, kind, l.text);
    assert LinkEpisodes(links, suffix, kind) == LinkEpisodes(front, suffix, kind) + [e];
    if k < |front| {
      LinkEpisodeAt(front, suffix, kind, k);
      assert links[k] == front[k];
    } else if |front| > 0 {
      LinkEpisodeAt(front, suffix, kind, 0);
    }
  }

  lemma LinkEpisodesRead(links: seq<Link>, suffix: string, kind: EpisodeKind)
    ensures |LinkEpisodes(links, suffix, kind)| == |links|
    ensures forall k :: 0 <= k < |links| ==>
      LinkEpisodes(links, suffix, kind)[k] == NewEpisode(links[k].href + suffix, kind, links[k].text)
  {
    forall k | 0 <= k < |links|
      ensures LinkEpisodes(links, suffix, kind)[k] == NewEpisode(links[k].href + suffix, kind, links[k].text)
    {
      LinkEpisodeAt(links, suffix, kind, k);
    }
    if |links| > 0 {
      LinkEpisodeAt(links, suffix, kind, 0);
    }
  }

  /** The movies of an assembly page, each at its "watch/" page, named by the assembly rule. */
  function AssemblyEpisodes(movies: seq<Link>): seq<Episode>
  {
    LinkEpisodes(movies, WATCH, Assembly)
  }

  /** One episode per movie of the assembly, in page order, at the movie's "watch/" page. */
  lemma AssemblyEpisodesRead(movies: seq<Link>)
    ensures |AssemblyEpisodes(movies)| == |movies|
    ensures forall k :: 0 <= k < |movies| ==>
      AssemblyEpisodes(movies)[k] == NewEpisode(movies[k].href + WATCH, Assembly, movies[k].text)
  {
    LinkEpisodesRead(movies, WATCH, Assembly);
  }

  /** The links of a season: the page's own list for the active tab, the fetched list otherwise. */
  function SeasonLinks(s: SeasonTab, pageLinks: seq<Link>): seq<Link>
  {
    if s.active then pageLinks else s.fetched
  }

  function SeasonEpisodes(s: SeasonTab, links: seq<Link>): seq<Episode>
  {
    if |links| == 0 then []
    else
      var l := links[|links| - 1];
      SeasonEpisodes(s, links[..|links| - 1]) + [NewEpisode(l.href, Series, s.text + " " + l.text)]
  }

  /** One episode per link of the season, at the link, named by the season's text and the link's. */
  lemma {:induction false} SeasonEpisodesRead(s: SeasonTab, links: seq<Link>)
    ensures |SeasonEpisodes(s, links)| == |links|
    ensures forall k :: 0 <= k < |links| ==>
      SeasonEpisodes(s, links)[k].url == links[k].href && SeasonEpisodes(s, links)[k].name == s.text + " " + links[k].text
  {
    if |links| > 0 {
      var front := links[..|links| - 1];
      SeasonEpisodesRead(s, front);
      var r := SeasonEpisodes(s, links);
      var l := links[|links| - 1];
      assert r == SeasonEpisodes(s, front) + [NewEpisode(l.href, Series, s.text + " " + l.text)];
      forall k | 0 <= k < |links|
        ensures r[k].url == links[k].href && r[k].name == s.text + " " + links[k].text
      {
        if k < |front| {
          assert links[k] == front[k];
        }
      }
    }
  }

  function SeriesEpisodes(seasons: seq<SeasonTab>, pageLinks: seq<Link>): seq<Episode>
  {
    if |seasons| == 0 then []
    else
      var s := seasons[|seasons| - 1];
      SeriesEpisodes(seasons[..|seasons| - 1], pageLinks) + SeasonEpisodes(s, SeasonLinks(s, pageLinks))
  }

  /**
   * The episode list of a page at `pageUrl`: the assembly's movies, the
   * single movie entry when there is no season block, or every season's
   * episodes in tab order.
   */
  function EpisodeList(pageUrl: string, movies: seq<Link>, hasSeasons: bool, seasons: seq<SeasonTab>,
                       pageLinks: seq<Link>): seq<Episode>
  {
    if Contains(pageUrl, ASSEMBLIES) then AssemblyEpisodes(movies)
    else if !hasSeasons then [NewEpisode(pageUrl, Movie, "")]
    else SeriesEpisodes(seasons, pageLinks)
  }

  /** `episodeListParse`: `addEpisodeNew` appends to the mutable `episodes` list. */
  method EpisodeListParse(pageUrl: string, movies: seq<Link>, hasSeasons: bool, seasons: seq<SeasonTab>,
                          pageLinks: seq<Link>) returns (episodes: seq<Episode>)
    ensures episodes == EpisodeList(pageUrl, movies, hasSeasons, seasons, pageLinks)
  {
    episodes := [];
    if Contains(pageUrl, ASSEMBLIES) {
      for i := 0 to |movies|
        invariant episodes == AssemblyEpisodes(movies[..i])
      {
        assert movies[..i + 1][..i] == movies[..i];
        episodes := episodes + [NewEpisode(movies[i].href + WATCH, Assembly, movies[i].text)];
      }
      assert movies[..|movies|] == movies;
      return;
    }
    if !hasSeasons {
      episodes := episodes + [NewEpisode(pageUrl, Movie, "")];
    } else {
      for i := 0 to |seasons|
        invariant episodes == SeriesEpisodes(seasons[..i], pageLinks)
      {
        assert seasons[..i + 1][..i] == seasons[..i];
        var season := seasons[i];
        var links := if season.active then pageLinks else season.fetched;
        episodes := AddSeason(episodes, season, links);
      }
      assert seasons[..|seasons|] == seasons;
    }
  }

  /** The inner loop over one season's links. */
  method AddSeason(before: seq<Episode>, s: SeasonTab, links: seq<Link>) returns (episodes: seq<Episode>)
    ensures episodes == before + SeasonEpisodes(s, links)
  {
    episodes := before;
    for j := 0 to |links|
      invariant episodes == before + SeasonEpisodes(s, links[..j])
    {
      assert links[..j + 1][..j] == links[..j];
      episodes := episodes + [NewEpisode(links[j].href, Series, s.text + " " + links[j].text)];
    }
    assert links[..|links|] == links;
  }

  /** On an assembly page the season block is not looked at. */
  lemma AssemblyPageWins(pageUrl: string, movies: seq<Link>, h1: bool, s1: seq<SeasonTab>, p1: seq<Link>,
                         h2: bool, s2: seq<SeasonTab>, p2: seq<Link>)
    requires Contains(pageUrl, ASSEMBLIES)
    ensures EpisodeList(pageUrl, movies, h1, s1, p1) == EpisodeList(pageUrl, movies, h2, s2, p2)
    ensures |EpisodeList(pageUrl, movies, h1, s1, p1)| == |movies|
  {
    AssemblyEpisodesRead(movies);
  }

  /** A page without a season block is one "مشاهدة" episode at the page itself. */
  lemma MoviePage(pageUrl: string, movies: seq<Link>, seasons: seq<SeasonTab>, pageLinks: seq<Link>)
    requires !Contains(pageUrl, ASSEMBLIES)
    ensures EpisodeList(pageUrl, movies, false, seasons, pageLinks) == [Episode(pageUrl, WATCH_LABEL, None)]
  {
  }

  /** The number of links over all season tabs. */
  function LinkCount(seasons: seq<SeasonTab>, pageLinks: seq<Link>): nat
  {
    if |seasons| == 0 then 0
    else LinkCount(seasons[..|seasons| - 1], pageLinks) + |SeasonLinks(seasons[|seasons| - 1], pageLinks)|
  }

  /** A series page has one episode per link of every season tab. */
  lemma {:induction false} SeriesCount(seasons: seq<SeasonTab>, pageLinks: seq<Link>)
    ensures |SeriesEpisodes(seasons, pageLinks)| == LinkCount(seasons, pageLinks)
  {
    if |seasons| > 0 {
      var last := seasons[|seasons| - 1];
      SeriesCount(seasons[..|seasons| - 1], pageLinks);
      SeasonEpisodesRead(last, SeasonLinks(last, pageLinks));
    }
  }

  /** The last season tab's episodes come last. */
  lemma SeriesLast(seasons: seq<SeasonTab>, pageLinks: seq<Link>)
    requires |seasons| > 0
    ensures SeriesEpisodes(seasons, pageLinks) == SeriesEpisodes(seasons[..|seasons| - 1], pageLinks)
      + SeasonEpisodes(seasons[|seasons| - 1], SeasonLinks(seasons[|seasons| - 1], pageLinks))
  {
  }

  lemma AppendAssoc(x: seq<Episode>, y: seq<Episode>, z: seq<Episode>)
    ensures (x + y) + z == x + (y + z)
  {
  }

  /** The season tabs contribute their episodes in tab order. */
  lemma {:induction false} SeriesAppend(a: seq<SeasonTab>, b: seq<SeasonTab>, pageLinks: seq<Link>)
    ensures SeriesEpisodes(a + b, pageLinks) == SeriesEpisodes(a, pageLinks) + SeriesEpisodes(b, pageLinks)
    decreases |b|
  {
    if |b| == 0 {
      assert a + b == a;
    } else {
      var ab := a + b;
      var front := b[..|b| - 1];
      var last := b[|b| - 1];
      assert ab[..|ab| - 1] == a + front;
      assert ab[|ab| - 1] == last;
      SeriesLast(ab, pageLinks);
      SeriesLast(b, pageLinks);
      SeriesAppend(a, front, pageLinks);
      var tail := SeasonEpisodes(last, SeasonLinks(last, pageLinks));
      AppendAssoc(SeriesEpisodes(a, pageLinks), SeriesEpisodes(front, pageLinks), tail);
    }
  }

  /** An assembly title `فيلم<rest>` is named by its trimmed rest. */
  lemma AssemblyDropsMovieWord(rest: string)
    requires !Contains(rest, MOVIE_WORD)
    ensures EpisodeName(Assembly, MOVIE_WORD + rest) == Trim(rest)
  {
    ReplaceLeading(MOVIE_WORD, rest, "");
    assert "" + rest == rest;
  }

  /** An assembly title without the word and without surrounding blanks is kept as it is. */
  lemma AssemblyPlainTitle(title: string)
    requires !Contains(title, MOVIE_WORD) && Trim(title) == title
    ensures EpisodeName(Assembly, title) == title
  {
    ReplaceAbsent(title, MOVIE_WORD, "");
  }

  // ---------------------------------------------------------------------
  // Search result link
  // ---------------------------------------------------------------------

  /** `searchAnimeFromElement`: "watch/" is appended unless the link is an assembly. */
  function SearchLink(link: string): (r: string)
    ensures Contains(link, ASSEMBLIES) ==> r == link
    ensures !Contains(link, ASSEMBLIES) ==> r == link + WATCH
  {
    if Contains(link, ASSEMBLIES) then link else link + WATCH
  }

  /** Appending "watch/" neither creates nor removes the "assemblies" marker. */
  lemma WatchKeepsMarker(link: string)
    ensures Contains(link + WATCH, ASSEMBLIES) <==> Contains(link, ASSEMBLIES)
  {
    var t := link + WATCH;
    if Contains(link, ASSEMBLIES) {
      var i := IndexOf(link, ASSEMBLIES);
      assert t[i..i + |ASSEMBLIES|] == link[i..i + |ASSEMBLIES|];
      OccursAtContains(t, ASSEMBLIES, i);
    }
    if Contains(t, ASSEMBLIES) {
      var i := IndexOf(t, ASSEMBLIES);
      assert t[i + 9] == t[i..i + |ASSEMBLIES|][9] == 's';
      assert forall m :: |link| <= m < |t| ==> t[m] == WATCH[m - |link|] != 's';
      assert link[i..i + |ASSEMBLIES|] == t[i..i + |ASSEMBLIES|];
      OccursAtContains(link, ASSEMBLIES, i);
    }
  }

  /** The link is an assembly link after the rewrite exactly when it was one before, so the rewrite is stable. */
  lemma SearchLinkOnce(link: string)
    ensures Contains(SearchLink(link), ASSEMBLIES) <==> Contains(link, ASSEMBLIES)
    ensures Contains(link, ASSEMBLIES) ==> SearchLink(SearchLink(link)) == link
    ensures !Contains(link, ASSEMBLIES) ==> SearchLink(SearchLink(link)) == link + WATCH + WATCH
  {
    WatchKeepsMarker(link);
  }

  // ---------------------------------------------------------------------
  // Search and latest requests
  // ---------------------------------------------------------------------

  /** The `query` of each category (`getCategoryList()`); index 0 is "choose". */
  const CATEGORY_QUERIES: seq<string> := [
    "",
    "category/%d8%a7%d9%81%d9%84%d8%a7%d9%85-%d8%a7%d8%ac%d9%86%d8%a8%d9%8a-3/",
    "category/افلام-انمي/",
    "category/افلام-تركية/",
    "category/افلام-اسيوية/",
    "category/افلام-هندي-1/",
    "assemblies/",
    "category/مسلسلات-اجنبي-1/",
    "category/مسلسلات-انمي-4/",
    "category/مسلسلات-تركي-3/",
    "category/مسلسلات-اسيوي/",
    "category/مسلسلات-هندية/"
  ]

  /** `searchAnimeRequest`; a state past the table's end throws. */
  function SearchUrl(baseUrl: string, page: int, query: string, filters: seq<Filter>): (r: Result<string>)
    ensures !IsBlank(query) ==> r == Success(baseUrl + "/page/" + IntToString(page) + "/?s=" + query)
    ensures IsBlank(query) && ChosenCategory(filters).None? ==> r == Success(baseUrl + "/home2/page/" + IntToString(page))
    ensures IsBlank(query) && ChosenCategory(filters).Some? ==>
      var c := ChosenCategory(filters).value;
      (r.Failure? <==> c >= |CATEGORY_QUERIES|)
      && (r.Success? ==> r.value == baseUrl + "/" + CATEGORY_QUERIES[c] + "/page/" + IntToString(page) + "/")
  {
    var p := IntToString(page);
    if !IsBlank(query) then Success(baseUrl + "/page/" + p + "/?s=" + query)
    else
      match ChosenCategory(filters)
      case None => Success(baseUrl + "/home2/page/" + p)
      case Some(c) =>
        if c < |CATEGORY_QUERIES| then Success(baseUrl + "/" + CATEGORY_QUERIES[c] + "/page/" + p + "/")
        else Failure("IndexOutOfBoundsException")
  }

  /** A non-blank query is searched whatever the filters say. */
  lemma QueryWins(baseUrl: string, page: int, query: string, f1: seq<Filter>, f2: seq<Filter>)
    requires !IsBlank(query)
    ensures SearchUrl(baseUrl, page, query, f1) == SearchUrl(baseUrl, page, query, f2)
  {
  }

  /** The default sheet lists the "home2" pages. */
  lemma DefaultSearch(baseUrl: string, page: int)
    ensures SearchUrl(baseUrl, page, "", []) == Success(baseUrl + "/home2/page/" + IntToString(page))
  {
    NothingSelected([]);
  }

  /** `latestUpdatesRequest`: page 1 is the bare base URL. */
  function LatestUrl(baseUrl: string, page: int): (r: string)
    ensures page == 1 ==> r == baseUrl
    ensures page != 1 ==> r == baseUrl + "/?page=" + IntToString(page)
  {
    if page == 1 then baseUrl else baseUrl + "/?page=" + IntToString(page)
  }

  /** Different pages are different requests. */
  lemma LatestPagesDistinct(baseUrl: string, p: int, q: int)
    requires p != q
    ensures LatestUrl(baseUrl, p) != LatestUrl(baseUrl, q)
  {
    var prefix := baseUrl + "/?page=";
    SignOfText(p);
    SignOfText(q);
    if p != 1 && q != 1 {
      var u, v := LatestUrl(baseUrl, p), LatestUrl(baseUrl, q);
      if u == v {
        assert u[|prefix|..] == IntToString(p);
        assert v[|prefix|..] == IntToString(q);
        IntToStringInjective(p, q);
      }
    }
  }
}
