/**
 * XS Anime: the episode list of a series or a film, the series status from
 * the advertised episode count, the 4shared iframe and its videos, the
 * listing and search URLs, and the filter sheet.
 */
module XsAnime {
  import opened Wrappers
  import opened KotlinText
  import opened Media
  import opened HttpUrl

  const BASE_URL: string := "https://ww.xsanime.com"

  // ---------------------------------------------------------------------
  // Episodes
  // ---------------------------------------------------------------------

  /** A page whose address contains this is a film. */
  const MOVIE_MARK: string := "/movie/"
  /** The name of a film's single episode ("watch"). */
  const WATCH_LABEL: string := "مشاهدة"

  /** One `#episodes a` link: its `href` and its `title`. */
  datatype Link = Link(href: string, title: string)

  /** `episodeFromElement`: the title's digits as the number, 1 when they do not read as a number. */
  function EpisodeFromElement(l: Link): (e: Episode)
    ensures e.url == l.href && e.name == l.title && e.number.Some?
    ensures DigitsNumber(l.title).Success? ==> e.number.value == FilterDigits(l.title)
    ensures DigitsNumber(l.title).Failure? ==> e.number.value == "1"
  {
    var number := match DigitsNumber(l.title) case Success(n) => n case Failure(_) => "1";
    Episode(l.href, l.title, Some(number))
  }

  /** `episodeListParse`: a film is one "watch" episode at its own address, a series one episode per link. */
  function EpisodeList(url: string, links: seq<Link>): (r: seq<Episode>)
    ensures Contains(url, MOVIE_MARK) ==> r == [Episode(url, WATCH_LABEL, None)]
    ensures !Contains(url, MOVIE_MARK) ==> |r| == |links| && forall k :: 0 <= k < |links| ==> r[k] == EpisodeFromElement(links[k])
  {
    if Contains(url, MOVIE_MARK) then [Episode(url, WATCH_LABEL, None)]
    else seq(|links|, k requires 0 <= k < |links| => EpisodeFromElement(links[k]))
  }

  /** Any address with "/movie/" in its path is a film, whatever links the page has. */
  lemma FilmPage(site: string, slug: string, links: seq<Link>)
    ensures EpisodeList(site + MOVIE_MARK + slug, links) == [Episode(site + MOVIE_MARK + slug, WATCH_LABEL, None)]
  {
    var url := site + MOVIE_MARK + slug;
    assert OccursAt(url, MOVIE_MARK, |site|) by {
      assert url[|site|..|site| + |MOVIE_MARK|] == MOVIE_MARK;
    }
    OccursAtContains(url, MOVIE_MARK, |site|);
  }

  /** A title made of digit-free words and a number is that episode number. */
  lemma NumberedTitle(href: string, words: string, n: nat)
    requires forall i :: 0 <= i < |words| ==> !IsDigit(words[i])
    ensures EpisodeFromElement(Link(href, words + IntToString(n))).number == Some(IntToString(n))
  {
    NumberAfterText(words, n);
    NatTextAscii(n);
    assert IntToString(n) != "" by {
      SignOfText(n);
    }
  }

  /** A title without digits is episode 1. */
  lemma UnnumberedTitle(href: string, title: string)
    requires forall i :: 0 <= i < |title| ==> !IsDigit(title[i])
    ensures EpisodeFromElement(Link(href, title)).number == Some("1")
  {
    FilterDigitsKeepsDigits(title);
  }

  // ---------------------------------------------------------------------
  // Status
  // ---------------------------------------------------------------------

  /**
   * `animeDetailsParse`'s status: the advertised episode count is the
   * digits of the "number of episodes" line; the count on the page is one
   * more than the number of episode links. A missing or unreadable count,
   * or one equal to the page's, is COMPLETED; a larger one is ONGOING; a
   * smaller one UNKNOWN.
   */
  function StatusOf(countText: string, links: nat): (r: Status)
  {
    var advertised := ToIntOrNull(FilterDigits(countText));
    var count := links + 1;
    if advertised.None? || count == advertised.value then Completed
    else if count < advertised.value then Ongoing
    else Unknown
  }

  /** An advertised count compares with the links plus one. */
  lemma AdvertisedCount(words: string, n: nat, links: nat)
    requires forall i :: 0 <= i < |words| ==> !IsDigit(words[i])
    requires n <= INT_MAX
    ensures StatusOf(words + IntToString(n), links) == Completed <==> n == links + 1
    ensures StatusOf(words + IntToString(n), links) == Ongoing <==> links + 1 < n
    ensures StatusOf(words + IntToString(n), links) == Unknown <==> n < links + 1
  {
    assert ToIntOrNull(FilterDigits(words + IntToString(n))) == Some(n) by {
      NumberAfterText(words, n);
      IntTextRoundTrip(n);
    }
  }

  /** A line without any digit leaves the series COMPLETED, however many links there are. */
  lemma NoAdvertisedCount(countText: string, links: nat)
    requires forall i :: 0 <= i < |countText| ==> !IsDigit(countText[i])
    ensures StatusOf(countText, links) == Completed
  {
    FilterDigitsKeepsDigits(countText);
  }

  // ---------------------------------------------------------------------
  // Videos
  // ---------------------------------------------------------------------

  const VIDEO_MARK: string := "video"
  const EMBED_PATH: string := "web/embed/file"
  const DEFAULT_LABEL: string := "Default: If you want to change the quality go to extension settings"

  /** The 4shared link's address up to its last "/", with "video" turned into the embed path. */
  function IframeUrl(href: string): string
  {
    Replace(SubstringBeforeLast(href, "/"), VIDEO_MARK, EMBED_PATH)
  }

  /**
   * A share link `<a>video<id>/<file>` opens the embed page `<a>web/embed/file<id>`:
   * the file name goes and the first "video" becomes the embed path.
   */
  lemma IframeOfShareLink(a: string, id: string, file: string)
    requires FirstAtEnd(a, VIDEO_MARK) && !Contains(id, VIDEO_MARK) && '/' !in file
    ensures IframeUrl(a + VIDEO_MARK + id + "/" + file) == a + EMBED_PATH + id
  {
    assert a + VIDEO_MARK + id + "/" + file == (a + VIDEO_MARK + id) + ['/'] + file;
    LastOccurrence(a + VIDEO_MARK + id, '/', file);
    ReplaceFirst(a, VIDEO_MARK, id, EMBED_PATH);
    ReplaceAbsent(id, VIDEO_MARK, EMBED_PATH);
  }

  /** `videoFromElement`: the `src` of a `source` element is both addresses, under the fixed label. */
  function VideoFromElement(src: string): Video
  {
    Video(src, DEFAULT_LABEL, src)
  }

  /** The iframe page's `source` elements, one video each, in document order. */
  function VideoList(sources: seq<string>): (r: seq<Video>)
    ensures |r| == |sources|
    ensures forall k :: 0 <= k < |sources| ==> r[k].url == sources[k] && r[k].videoUrl == sources[k] && r[k].quality == DEFAULT_LABEL
  {
    seq(|sources|, k requires 0 <= k < |sources| => VideoFromElement(sources[k]))
  }

  // ---------------------------------------------------------------------
  // Latest
  // ---------------------------------------------------------------------

  /**
   * `latestUpdatesFromElement`'s series address: "episode" becomes "anime",
   * then the last two "-"-separated pieces are dropped.
   */
  function LatestUrl(href: string): string
  {
    var parts := Split(Replace(href, "episode", "anime"), "-");
    Join(if |parts| <= 2 then [] else parts[..|parts| - 2], "-")
  }

  /**
   * An episode address `<a>episode<slug>-<n>-<tail>` leads to the series
   * address `<a>anime<slug>`.
   */
  lemma LatestUrlOfEpisode(a: string, slug: string, n: string, tail: string)
    requires FirstAtEnd(a, "episode") && !Contains(slug + "-" + n + "-" + tail, "episode")
    requires '-' !in n && '-' !in tail
    ensures LatestUrl(a + "episode" + slug + "-" + n + "-" + tail) == a + "anime" + slug
  {
    var rest := slug + "-" + n + "-" + tail;
    var series := a + "anime" + slug;
    var replaced := series + ['-'] + n + ['-'] + tail;
    assert Replace(a + "episode" + slug + "-" + n + "-" + tail, "episode", "anime") == replaced by {
      assert a + "episode" + slug + "-" + n + "-" + tail == a + "episode" + rest;
      ReplaceFirst(a, "episode", rest, "anime");
      ReplaceAbsent(rest, "episode", "anime");
      Regroup(a + "anime", slug, n, tail);
    }
    var parts := Split(series, "-");
    assert Split(replaced, "-") == parts + [n] + [tail] by {
      SplitSnoc(series + ['-'] + n, '-', tail);
      SplitSnoc(series, '-', n);
    }
    var all := parts + [n] + [tail];
    assert all[..|all| - 2] == parts;
    JoinSplit(series, "-");
  }

  lemma Regroup(x: string, s: string, n: string, t: string)
    ensures x + (s + "-" + n + "-" + t) == x + s + "-" + n + "-" + t
  {
  }

  /** An address with fewer than two dashes leaves nothing. */
  lemma LatestUrlWithoutDash(href: string)
    requires '-' !in href
    ensures LatestUrl(href) == ""
  {
    ReplaceKeepsOut(href, "episode", "anime", '-');
    NoFirstCharNoOccurrence(Replace(href, "episode", "anime"), "-");
  }

  // ---------------------------------------------------------------------
  // Search
  // ---------------------------------------------------------------------

  /** The status select: sent value, shown name. */
  const STATUS_VALS: seq<(string, string)> := [("", "<اختر>"), ("مستمر", "مستمر"), ("منتهي", "منتهي")]

  /** The genre select: sent value, shown name. */
  const GENRE_VALS: seq<(string, string)> := [
    ("", "<اختر>"), ("أكشن", "أكشن"), ("تاريخي", "تاريخي"), ("حريم", "حريم"),
    ("خارق للطبيعة", "خارق للطبيعة"), ("خيال", "خيال"), ("دراما", "دراما"), ("رومانسي", "رومانسي"),
    ("رياضي", "رياضي"), ("سينين", "سينين"), ("شونين", "شونين"), ("شياطين", "شياطين"), ("غموض", "غموض"),
    ("قوى خارقة", "قوى خارقة"), ("كوميدي", "كوميدي"), ("لعبة", "لعبة"), ("مدرسي", "مدرسي"),
    ("مغامرات", "مغامرات"), ("موسيقي", "موسيقي"), ("نفسي", "نفسي")
  ]

  /** `UriPartFilter`: the select shows the second component of each pair ... */
  function Shown(vals: seq<(string, string)>): (r: seq<string>)
    ensures |r| == |vals| && forall k :: 0 <= k < |vals| ==> r[k] == vals[k].1
  {
    seq(|vals|, k requires 0 <= k < |vals| => vals[k].1)
  }

  /** ... and `toUriPart()` sends the first component of the chosen one; a state past the end throws. */
  function UriPart(vals: seq<(string, string)>, state: nat): (r: Result<string>)
    ensures r.Success? <==> state < |vals|
    ensures r.Success? ==> r.value == vals[state].0
  {
    if state < |vals| then Success(vals[state].0) else Failure("ArrayIndexOutOfBoundsException")
  }

  /** Every genre and status but the placeholder is sent under the name it is shown with; the placeholder sends "". */
  lemma SentAsShown()
    ensures forall k :: 0 < k < |GENRE_VALS| ==> UriPart(GENRE_VALS, k) == Success(Shown(GENRE_VALS)[k])
    ensures forall k :: 0 < k < |STATUS_VALS| ==> UriPart(STATUS_VALS, k) == Success(Shown(STATUS_VALS)[k])
    ensures UriPart(GENRE_VALS, 0) == Success("") && UriPart(STATUS_VALS, 0) == Success("")
  {
  }

  /** A filter of the sheet: the genre select, the status select, or the header and separator. */
  datatype Filter = GenreSelect(state: nat) | StatusSelect(state: nat) | Inert

  /** `getFilterList()` untouched: header, separator, genre and status at the placeholder. */
  const DEFAULT_FILTERS: seq<Filter> := [Inert, Inert, GenreSelect(0), StatusSelect(0)]

  /** The parameter one filter adds. */
  function FilterParam(f: Filter): Result<seq<(string, string)>>
  {
    match f
    case GenreSelect(s) => (match UriPart(GENRE_VALS, s) case Failure(e) => Failure(e) case Success(v) => Success([("genre", v)]))
    case StatusSelect(s) => (match UriPart(STATUS_VALS, s) case Failure(e) => Failure(e) case Success(v) => Success([("status", v)]))
    case Inert => Success([])
  }

  /** The filters' parameters in sheet order; the first filter that throws ends the walk. */
  function FilterParams(fs: seq<Filter>): Result<seq<(string, string)>>
  {
    if |fs| == 0 then Success([])
    else
      match FilterParams(fs[..|fs| - 1])
      case Failure(e) => Failure(e)
      case Success(ps) =>
        match FilterParam(fs[|fs| - 1])
        case Failure(e) => Failure(e)
        case Success(p) => Success(ps + p)
  }

  /**
   * The listing address. It is parsed from ".../page/<n>/?", whose empty
   * query is one parameter with an empty name and no value; that parameter
   * renders as nothing, so each added parameter follows an "&".
   */
  function ListingUrl(page: int, ps: seq<(string, string)>): string
  {
    BASE_URL + "/anime_list/page/" + IntToString(page) + "/?" + Join([""] + QueryPairs(ps), "&")
  }

  /** `searchAnimeRequest`: a non-blank query searches by text; otherwise the listing with the filters' parameters. */
  function SearchUrl(page: int, query: string, filters: seq<Filter>): (r: Result<string>)
    ensures !IsBlank(query) ==> r == Success(BASE_URL + "/page/" + IntToString(page) + "/?s=" + query)
    ensures IsBlank(query) ==> (r.Success? <==> FilterParams(filters).Success?)
  {
    if !IsBlank(query) then Success(BASE_URL + "/page/" + IntToString(page) + "/?s=" + query)
    else
      match FilterParams(filters)
      case Failure(e) => Failure(e)
      case Success(ps) => Success(ListingUrl(page, ps))
  }

  /** One more filter: its parameter goes after the others', or its failure ends the walk. */
  lemma FilterParamsSnoc(fs: seq<Filter>, f: Filter)
    ensures FilterParams(fs + [f]) == match FilterParams(fs)
      case Failure(e) => Failure(e)
      case Success(ps) => (match FilterParam(f) case Failure(e) => Failure(e) case Success(p) => Success(ps + p))
  {
    assert (fs + [f])[..|fs|] == fs;
  }

  /** A genre or status past its table's end makes the whole request throw. */
  lemma OutOfRangeThrows(fs: seq<Filter>, f: Filter)
    requires FilterParam(f).Failure?
    ensures FilterParams(fs + [f]).Failure?
  {
    FilterParamsSnoc(fs, f);
  }

  /** The untouched sheet lists every genre and status: both parameters are sent, empty. */
  lemma DefaultSheetUrl(page: int)
    ensures SearchUrl(page, "", DEFAULT_FILTERS) == Success(ListingUrl(page, [("genre", ""), ("status", "")]))
  {
    DefaultSheetParams();
  }

  lemma DefaultSheetParams()
    ensures FilterParams(DEFAULT_FILTERS) == Success([("genre", ""), ("status", "")])
  {
    var none: seq<(string, string)> := [];
    assert FilterParam(Inert) == Success(none);
    assert FilterParam(GenreSelect(0)) == Success([("genre", "")]);
    assert FilterParam(StatusSelect(0)) == Success([("status", "")]);
    assert none + none == none;
    assert none + [("genre", "")] == [("genre", "")];
    assert [("genre", "")] + [("status", "")] == [("genre", ""), ("status", "")];
    FilterParamsSnoc([], Inert);
    assert [] + [Inert] == [Inert];
    FilterParamsSnoc([Inert], Inert);
    assert [Inert] + [Inert] == [Inert, Inert];
    FilterParamsSnoc([Inert, Inert], GenreSelect(0));
    assert [Inert, Inert] + [GenreSelect(0)] == [Inert, Inert, GenreSelect(0)];
    FilterParamsSnoc([Inert, Inert, GenreSelect(0)], StatusSelect(0));
    assert [Inert, Inert, GenreSelect(0)] + [StatusSelect(0)] == DEFAULT_FILTERS;
  }

  /** Two parameters sent empty follow the leading empty name: "&<a>=&<b>=". */
  lemma EmptyPairsQuery(a: string, b: string)
    requires Encode(a, true) == a && Encode(b, true) == b
    ensures Join([""] + QueryPairs([(a, ""), (b, "")]), "&") == "" + "&" + ((a + "=") + "&" + (b + "="))
  {
    var ps := [(a, ""), (b, "")];
    assert QueryPairs(ps) == [a + "="] + [b + "="] by {
      QueryPairsTwo((a, ""), (b, ""));
      EmptyValue(a);
      EmptyValue(b);
    }
    var qs := [a + "="] + [b + "="];
    assert Join(qs, "&") == (a + "=") + "&" + (b + "=") by {
      JoinCons(a + "=", [b + "="], "&");
    }
    JoinCons("", qs, "&");
  }

  lemma QueryPairsTwo(p: (string, string), q: (string, string))
    ensures QueryPairs([p, q]) == [QueryPair(p), QueryPair(q)]
  {
    assert [q][1..] == [];
    assert QueryPairs([q]) == [QueryPair(q)];
    assert [p, q][1..] == [q];
  }

  /** A parameter with an empty value renders as its name and "=". */
  lemma EmptyValue(name: string)
    requires Encode(name, true) == name
    ensures QueryPair((name, "")) == name + "="
  {
    assert Encode("", true) == "";
  }

  /** A lower-case ASCII name is sent as it is. */
  lemma PlainName(name: string)
    requires forall k :: 0 <= k < |name| ==> 'a' <= name[k] <= 'z'
    ensures Encode(name, true) == name
  {
    EncodePlain(name, true);
  }

  /** With nothing to add, the listing address ends at the bare "?". */
  lemma NoParameters(page: int)
    ensures ListingUrl(page, []) == BASE_URL + "/anime_list/page/" + IntToString(page) + "/?"
  {
    assert [""] + QueryPairs([]) == [""];
  }
}
