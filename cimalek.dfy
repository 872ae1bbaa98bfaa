/**
 * Cimalek: the variant streams read from an HLS master playlist, the player
 * version read from the page script, the episode naming, the details status
 * and the search request built with an `HttpUrl.Builder`.
 */
module Cimalek {
  import opened Wrappers
  import opened KotlinText
  import opened Media
  import opened HttpUrl

  const BASE_URL: string := "https://m.cimaleek.to"
  const WATCH_LABEL: string := "مشاهدة"

  // ---------------------------------------------------------------------
  // Master playlist
  // ---------------------------------------------------------------------

  /** The tag introducing a variant stream (section 4.3.4.2 of RFC 8216). */
  const STREAM_INF: string := "#EXT-X-STREAM-INF:"
  const RESOLUTION: string := "RESOLUTION="

  /** The height of `RESOLUTION=<w>x<h>,`, as a label: "1280x720," gives "720p". */
  function VariantQuality(segment: string): string
  {
    SubstringBefore(SubstringAfter(SubstringAfter(segment, RESOLUTION), "x"), ",") + "p"
  }

  /** The line after the tag's attribute line, with every "https" turned into "http". */
  function VariantUrl(segment: string): string
  {
    Replace(SubstringBefore(SubstringAfter(segment, "\n"), "\n"), "https", "http")
  }

  function VariantVideo(segment: string, index: int): Video
  {
    var url := VariantUrl(segment);
    Video(url, "Server " + IntToString(index) + ": " + VariantQuality(segment), url)
  }

  /** One video per segment, in playlist order, all labelled with the server's index. */
  function VariantVideos(segments: seq<string>, index: int): (r: seq<Video>)
    ensures |r| == |segments|
    ensures forall k :: 0 <= k < |segments| ==> r[k] == VariantVideo(segments[k], index)
  {
    if |segments| == 0 then []
    else VariantVideos(segments[..|segments| - 1], index) + [VariantVideo(segments[|segments| - 1], index)]
  }

  /** The segments after the first tag, cut at every further tag. */
  function Segments(body: string): (r: seq<string>)
    ensures |r| >= 1
  {
    Split(SubstringAfter(body, STREAM_INF), STREAM_INF)
  }

  /**
   * The videos of one server: its playlist is read only when the request
   * finally landed on an "m3u8" URL.
   */
  function PlaylistVideos(finalUrl: string, body: string, index: int): (r: seq<Video>)
    ensures !Contains(finalUrl, "m3u8") ==> r == []
    ensures Contains(finalUrl, "m3u8") ==> |r| == |Segments(body)|
  {
    if Contains(finalUrl, "m3u8") then VariantVideos(Segments(body), index) else []
  }

  /** `extractVideos` past the network calls: one video appended per segment. */
  method ExtractVideos(finalUrl: string, body: string, index: int) returns (videoList: seq<Video>)
    ensures videoList == PlaylistVideos(finalUrl, body, index)
  {
    videoList := [];
    if Contains(finalUrl, "m3u8") {
      var segments := Segments(body);
      for k := 0 to |segments|
        invariant videoList == VariantVideos(segments[..k], index)
      {
        assert segments[..k + 1][..k] == segments[..k];
        var it := segments[k];
        var quality := SubstringBefore(SubstringAfter(SubstringAfter(it, RESOLUTION), "x"), ",") + "p";
        var playUrl := Replace(SubstringBefore(SubstringAfter(it, "\n"), "\n"), "https", "http");
        videoList := videoList + [Video(playUrl, "Server " + IntToString(index) + ": " + quality, playUrl)];
      }
      assert segments[..|segments|] == segments;
    }
  }

  /**
   * A variant as a master playlist writes it after the tag: attributes, then
   * `RESOLUTION=<width>x<height>,`, more attributes, the end of the line,
   * and the URI line.
   */
  datatype Variant = Variant(before: string, width: string, height: string, after: string, uri: string)

  function VariantText(v: Variant): string
  {
    v.before + RESOLUTION + v.width + "x" + v.height + "," + v.after + "\n" + v.uri + "\n"
  }

  /** Fields with no line break and no `#`, a width without `x`, a height without `,`. */
  predicate WellFormed(v: Variant)
  {
    FirstAtEnd(v.before, RESOLUTION)
    && '\n' !in v.before && '\n' !in v.width && '\n' !in v.height && '\n' !in v.after && '\n' !in v.uri
    && HashFree(v) && 'x' !in v.width && ',' !in v.height
  }

  predicate HashFree(v: Variant)
  {
    '#' !in v.before && '#' !in v.width && '#' !in v.height && '#' !in v.after && '#' !in v.uri
  }

  function VariantTexts(vs: seq<Variant>): (r: seq<string>)
    ensures |r| == |vs|
    ensures forall k :: 0 <= k < |vs| ==> r[k] == VariantText(vs[k])
  {
    if |vs| == 0 then [] else VariantTexts(vs[..|vs| - 1]) + [VariantText(vs[|vs| - 1])]
  }

  /** A master playlist: a header, then each variant after its tag. */
  function Playlist(header: string, vs: seq<Variant>): string
  {
    header + STREAM_INF + Join(VariantTexts(vs), STREAM_INF)
  }

  /** The quality label of a written variant is its height followed by "p". */
  lemma VariantQualityRead(v: Variant)
    requires WellFormed(v)
    ensures VariantQuality(VariantText(v)) == v.height + "p"
  {
    var rest := v.after + "\n" + v.uri + "\n";
    var tail := v.height + "," + rest;
    var afterRes := v.width + "x" + tail;
    assert VariantText(v) == v.before + RESOLUTION + afterRes;
    FirstOccurrence(v.before, RESOLUTION, afterRes);
    FirstAtEndChar(v.width, 'x');
    FirstOccurrence(v.width, "x", tail);
    FirstAtEndChar(v.height, ',');
    FirstOccurrence(v.height, ",", rest);
  }

  /** The play URL of a written variant is its URI line, "https" turned into "http". */
  lemma VariantUrlRead(v: Variant)
    requires WellFormed(v)
    ensures VariantUrl(VariantText(v)) == Replace(v.uri, "https", "http")
  {
    var line := v.before + RESOLUTION + v.width + "x" + v.height + "," + v.after;
    assert '\n' !in line;
    assert VariantText(v) == line + "\n" + (v.uri + "\n");
    FirstAtEndChar(line, '\n');
    FirstOccurrence(line, "\n", v.uri + "\n");
    FirstAtEndChar(v.uri, '\n');
    assert v.uri + "\n" == v.uri + "\n" + "";
    FirstOccurrence(v.uri, "\n", "");
  }

  /** A written variant is read back as one video: its height as label, its URI to play. */
  lemma VariantVideoRead(v: Variant, index: int)
    requires WellFormed(v)
    ensures var url := Replace(v.uri, "https", "http");
      VariantVideo(VariantText(v), index) == Video(url, "Server " + IntToString(index) + ": " + v.height + "p", url)
  {
    VariantQualityRead(v);
    VariantUrlRead(v);
    var lead := "Server " + IntToString(index) + ": ";
    assert lead + (v.height + "p") == lead + v.height + "p";
  }

  lemma NoHashInText(v: Variant)
    requires HashFree(v)
    ensures '#' !in VariantText(v)
  {
    assert '#' !in RESOLUTION;
    var a := v.before + RESOLUTION + v.width;
    assert '#' !in a;
    var b := a + "x" + v.height + ",";
    assert '#' !in b;
    var c := b + v.after + "\n";
    assert '#' !in c;
    assert VariantText(v) == c + v.uri + "\n";
  }

  /**
   * Texts lacking the tag's first character, joined by the tag after a
   * header that ends at its first tag, are cut back apart at it.
   */
  lemma TaggedSplit(header: string, texts: seq<string>, tag: string)
    requires |texts| > 0 && |tag| > 0 && FirstAtEnd(header, tag)
    requires forall k :: 0 <= k < |texts| ==> tag[0] !in texts[k]
    ensures Split(SubstringAfter(header + tag + Join(texts, tag), tag), tag) == texts
  {
    FirstOccurrence(header, tag, Join(texts, tag));
    forall k | 0 <= k < |texts| - 1
      ensures FirstAtEnd(texts[k], tag)
    {
      FirstAtEndFirstChar(texts[k], tag);
    }
    NoFirstCharNoOccurrence(texts[|texts| - 1], tag);
    SplitOfJoin(texts, tag);
  }

  lemma VariantsHashFree(vs: seq<Variant>)
    requires forall k :: 0 <= k < |vs| ==> HashFree(vs[k])
    ensures forall k :: 0 <= k < |vs| ==> '#' !in VariantTexts(vs)[k]
  {
    forall k | 0 <= k < |vs|
      ensures '#' !in VariantTexts(vs)[k]
    {
      NoHashInText(vs[k]);
    }
  }

  /** Cutting a written playlist at its tags gives the written variants back. */
  lemma SegmentsRead(header: string, vs: seq<Variant>)
    requires |vs| > 0 && FirstAtEnd(header, STREAM_INF)
    requires forall k :: 0 <= k < |vs| ==> HashFree(vs[k])
    ensures Segments(Playlist(header, vs)) == VariantTexts(vs)
  {
    VariantsHashFree(vs);
    assert STREAM_INF[0] == '#';
    TaggedSplit(header, VariantTexts(vs), STREAM_INF);
  }

  /**
   * Reading a master playlist the server wrote: one video per variant, in
   * order, labelled "Server <index>: <height>p", playing the variant's URI.
   */
  lemma PlaylistRoundTrip(finalUrl: string, header: string, vs: seq<Variant>, index: int)
    requires Contains(finalUrl, "m3u8")
    requires |vs| > 0 && FirstAtEnd(header, STREAM_INF)
    requires forall k :: 0 <= k < |vs| ==> WellFormed(vs[k])
    ensures var r := PlaylistVideos(finalUrl, Playlist(header, vs), index);
      |r| == |vs|
      && forall k :: 0 <= k < |vs| ==>
        r[k].quality == "Server " + IntToString(index) + ": " + vs[k].height + "p"
        && r[k].url == r[k].videoUrl == Replace(vs[k].uri, "https", "http")
  {
    var body := Playlist(header, vs);
    var texts := VariantTexts(vs);
    assert forall k :: 0 <= k < |vs| ==> HashFree(vs[k]);
    SegmentsRead(header, vs);
    var r := PlaylistVideos(finalUrl, body, index);
    assert r == VariantVideos(texts, index);
    forall k | 0 <= k < |vs|
      ensures r[k].quality == "Server " + IntToString(index) + ": " + vs[k].height + "p"
      ensures r[k].url == r[k].videoUrl == Replace(vs[k].uri, "https", "http")
    {
      VariantVideoRead(vs[k], index);
      assert r[k] == VariantVideo(texts[k], index);
    }
  }


  /** A server whose request did not end on an "m3u8" URL adds nothing, whatever its body. */
  lemma NotPlaylist(finalUrl: string, b1: string, b2: string, index: int)
    requires !Contains(finalUrl, "m3u8")
    ensures PlaylistVideos(finalUrl, b1, index) == PlaylistVideos(finalUrl, b2, index) == []
  {
  }

  // ---------------------------------------------------------------------
  // Servers
  // ---------------------------------------------------------------------

  const VERSION_OPEN: string := "ver\":\""

  /** The player version: the text after `ver":"` up to the next quote; a missing script throws. */
  function Version(script: Option<string>): (r: Result<string>)
    ensures script.None? <==> r.Failure?
  {
    match script
    case None => Failure("NullPointerException")
    case Some(data) => Success(SubstringBefore(SubstringAfter(data, VERSION_OPEN), "\""))
  }

  /** A version written as `ver":"<v>"` is read back. */
  lemma VersionRead(pre: string, v: string, rest: string)
    requires FirstAtEnd(pre, VERSION_OPEN) && '"' !in v
    ensures Version(Some(pre + VERSION_OPEN + v + "\"" + rest)) == Success(v)
  {
    FirstAtEndChar(v, '"');
    Between(pre, VERSION_OPEN, v, "\"", rest);
  }

  /** What one server yielded: `None` when one of its requests failed. */
  datatype Server = Server(outcome: Option<(string, string)>)

  function ServerResults(servers: seq<Server>, first: int): (r: seq<Option<seq<Video>>>)
    ensures |r| == |servers|
    ensures forall k :: 0 <= k < |servers| ==> r[k] == (match servers[k].outcome
      case None => None
      case Some(p) => Some(PlaylistVideos(p.0, p.1, first + k)))
  {
    if |servers| == 0 then []
    else
      var r := ServerResults(servers[..|servers| - 1], first);
      var last := servers[|servers| - 1];
      r + [match last.outcome
        case None => None
        case Some(p) => Some(PlaylistVideos(p.0, p.1, first + |servers| - 1))]
  }

  /** `videoListParse`: the servers numbered from 1, a failing one adding nothing. */
  function VideoList(script: Option<string>, servers: seq<Server>): (r: Result<seq<Video>>)
    ensures script.None? <==> r.Failure?
  {
    match Version(script)
    case Failure(e) => Failure(e)
    case Success(_) => Success(FlattenCatching(ServerResults(servers, 1)))
  }

  // ---------------------------------------------------------------------
  // Episodes and details
  // ---------------------------------------------------------------------

  /** An episode link of a season page: its `span.serie` text and its `href`. */
  datatype EpisodeLink = EpisodeLink(serie: string, href: string)

  /** A season link: its number text, and its page's links (`None` when fetching it failed). */
  datatype Season = Season(num: string, links: Option<seq<EpisodeLink>>)

  /** The episode number: the text between the first "(" and the next ")". */
  function EpisodeNumber(serie: string): string
  {
    SubstringBefore(SubstringAfter(serie, "("), ")")
  }

  function SeasonEpisode(seasonNum: string, l: EpisodeLink): Episode
  {
    var n := EpisodeNumber(l.serie);
    Episode(l.href + "/watch/", "الموسم " + seasonNum + " الحلقة " + n, Some(seasonNum + "." + n))
  }

  function SeasonEpisodes(seasonNum: string, links: seq<EpisodeLink>): (r: seq<Episode>)
    ensures |r| == |links|
    ensures forall k :: 0 <= k < |links| ==> r[k] == SeasonEpisode(seasonNum, links[k])
  {
    if |links| == 0 then [] else [SeasonEpisode(seasonNum, links[0])] + SeasonEpisodes(seasonNum, links[1..])
  }

  /** The fetched seasons' episodes in season order; a season whose page failed adds none. */
  function AllSeasons(seasons: seq<Season>): seq<Episode>
  {
    if |seasons| == 0 then []
    else
      var more := match seasons[0].links
        case None => []
        case Some(links) => SeasonEpisodes(seasons[0].num, links);
      more + AllSeasons(seasons[1..])
  }

  /** `episodeListParse`: a "movies" URL is one episode to watch, anything else its seasons' episodes. */
  function EpisodeList(url: string, seasons: seq<Season>): (r: seq<Episode>)
    ensures Contains(url, "movies") ==> r == [Episode(url + "/watch/", WATCH_LABEL, None)]
    ensures !Contains(url, "movies") ==> r == AllSeasons(seasons)
  {
    if Contains(url, "movies") then [Episode(url + "/watch/", WATCH_LABEL, None)]
    else AllSeasons(seasons)
  }

  /** The number of episodes is the number of links on the fetched season pages. */
  lemma {:induction false} AllSeasonsCount(seasons: seq<Season>)
    ensures |AllSeasons(seasons)| == LinkTotal(seasons)
  {
    if |seasons| > 0 {
      AllSeasonsCount(seasons[1..]);
    }
  }

  function LinkTotal(seasons: seq<Season>): nat
  {
    if |seasons| == 0 then 0
    else (match seasons[0].links case None => 0 case Some(l) => |l|) + LinkTotal(seasons[1..])
  }

  /** A "(n)" in the serie text names the episode "الموسم <season> الحلقة <n>" and numbers it "<season>.<n>". */
  lemma EpisodeNamed(seasonNum: string, pre: string, n: string, rest: string, href: string)
    requires '(' !in pre && ')' !in n
    ensures var e := SeasonEpisode(seasonNum, EpisodeLink(pre + "(" + n + ")" + rest, href));
      e.name == "الموسم " + seasonNum + " الحلقة " + n
      && e.number == Some(seasonNum + "." + n)
      && e.url == href + "/watch/"
  {
    FirstAtEndChar(pre, '(');
    FirstAtEndChar(n, ')');
    Between(pre, "(", n, ")", rest);
  }

  /** The details status: a genre list mentioning "افلام" (films) is complete. */
  function DetailsStatus(genres: string): (r: Status)
    ensures r == Completed <==> Contains(genres, "افلام")
    ensures r != Completed ==> r == Unknown
  {
    if Contains(genres, "افلام") then Completed else Unknown
  }

  // ---------------------------------------------------------------------
  // Search
  // ---------------------------------------------------------------------

  /** The `toUriPart()` values of the site sections, by state. */
  const SECTIONS: seq<string> := [
    "none", "aflam-online", "netflix-movies", "indian-movies", "asian-aflam", "cartoon-movies",
    "anime-movies", "english-series", "netflix-series", "asian-series", "anime-series", "netflix-anime"
  ]

  /** The `toUriPart()` values of the type select, by state. */
  const CATEGORIES: seq<string> := ["none", "movies", "series"]

  /** The genre select's values: the source's fourteen genres after `sortedArray()`. */
  const GENRES: seq<string> := [
    "Action", "Adventure", "Animation", "Comedy", "Crime", "Documentary", "Drama", "Family",
    "Fantasy", "Horror", "Romance", "Science-fiction", "Thriller", "Western"
  ]

  /** `String.compareTo(b) <= 0`: character by character, a prefix first. */
  predicate NotAfter(a: string, b: string)
  {
    |a| == 0 || (|b| > 0 && (a[0] < b[0] || (a[0] == b[0] && NotAfter(a[1..], b[1..]))))
  }

  /** The genre table is in `sortedArray()` order. */
  lemma GenresSorted()
    ensures forall k :: 0 <= k < |GENRES| - 1 ==> NotAfter(GENRES[k], GENRES[k + 1])
  {
    assert NotAfter("Action", "Adventure") && NotAfter("Adventure", "Animation");
    assert NotAfter("Animation", "Comedy") && NotAfter("Comedy", "Crime");
    assert NotAfter("Crime", "Documentary") && NotAfter("Documentary", "Drama");
    assert NotAfter("Drama", "Family") && NotAfter("Family", "Fantasy");
    assert NotAfter("Fantasy", "Horror") && NotAfter("Horror", "Romance");
    assert NotAfter("Romance", "Science-fiction") && NotAfter("Science-fiction", "Thriller");
    assert NotAfter("Thriller", "Western");
  }

  datatype Filter = SectionFilter(state: nat) | CategoryFilter(state: nat) | GenreFilter(state: nat) | OtherFilter

  datatype Kind = Section | Category | Genre

  predicate OfKind(f: Filter, kind: Kind)
  {
    match kind
    case Section => f.SectionFilter?
    case Category => f.CategoryFilter?
    case Genre => f.GenreFilter?
  }

  /** `filterList.find { it is … }`: the state of the first filter of that kind. */
  function FirstOf(fs: seq<Filter>, kind: Kind): (r: Option<nat>)
    ensures r.Some? <==> exists k :: 0 <= k < |fs| && OfKind(fs[k], kind)
    ensures r.Some? ==> exists k :: (0 <= k < |fs| && OfKind(fs[k], kind) && r.value == fs[k].state
      && forall j :: 0 <= j < k ==> !OfKind(fs[j], kind))
  {
    if |fs| == 0 then None
    else if OfKind(fs[0], kind) then Some(fs[0].state)
    else
      assert forall k :: 1 <= k < |fs| ==> fs[k] == fs[1..][k - 1];
      FirstOf(fs[1..], kind)
  }

  /** `getFilterList()`: the sheet used when the given list is empty. */
  function Sheet(filters: seq<Filter>): seq<Filter>
  {
    if |filters| == 0 then [OtherFilter, SectionFilter(0), OtherFilter, OtherFilter, CategoryFilter(0), GenreFilter(0)]
    else filters
  }

  /** The fixed path segments and parameter name of the listing URL. */
  const CATEGORY_SEGMENT: string := "category"
  const GENRE_SEGMENT: string := "genre"
  const PAGE_SEGMENT: string := "page"
  const TYPE_PARAM: string := "type"

  const CHOOSE_MESSAGE: string := "من فضلك اختر قسم او نوع"

  /** The two path segments naming the listing: a section, else the lowercased genre. */
  function ListingSegments(section: nat, genre: nat): (r: Result<(string, string)>)
  {
    if section != 0 then
      if section < |SECTIONS| then Success((CATEGORY_SEGMENT, SECTIONS[section])) else Failure("IndexOutOfBoundsException")
    else if genre < |GENRES| then Success((GENRE_SEGMENT, Lowercase(GENRES[genre])))
    else Failure("IndexOutOfBoundsException")
  }

  /** The listing URL for a blank query, built on the root of the site. */
  function BlankSearch(page: int, section: nat, category: nat, genre: nat): (r: Result<string>)
    ensures section == 0 && category == 0 ==> r == Failure(CHOOSE_MESSAGE)
  {
    if section == 0 && category == 0 then Failure(CHOOSE_MESSAGE)
    else
      match ListingSegments(section, genre)
      case Failure(e) => Failure(e)
      case Success(seg) =>
        if category != 0 && category >= |CATEGORIES| then Failure("IndexOutOfBoundsException")
        else
          var path := [Encode(seg.0, false), Encode(seg.1, false), Encode(PAGE_SEGMENT, false), Encode(IntToString(page), false)];
          Success(Render(BASE_URL, path, TypeParams(if category != 0 then Some(CATEGORIES[category]) else None)))
  }

  /** All three casts succeed: the sheet has a section, a category and a genre select. */
  predicate Chosen(filters: seq<Filter>)
  {
    FirstOf(Sheet(filters), Section).Some? && FirstOf(Sheet(filters), Category).Some? && FirstOf(Sheet(filters), Genre).Some?
  }

  /** `searchAnimeRequest` as a URL. */
  function SearchUrl(page: int, query: string, filters: seq<Filter>): (r: Result<string>)
    ensures (FirstOf(Sheet(filters), Section).None? || FirstOf(Sheet(filters), Category).None?
      || FirstOf(Sheet(filters), Genre).None?) ==> r == Failure("NullPointerException")
    ensures Chosen(filters) && !IsBlank(query) ==> r == Success(BASE_URL + "/page/" + IntToString(page) + "?s=" + query)
    ensures Chosen(filters) && IsBlank(query) ==>
      r == BlankSearch(page, FirstOf(Sheet(filters), Section).value, FirstOf(Sheet(filters), Category).value,
        FirstOf(Sheet(filters), Genre).value)
  {
    var fs := Sheet(filters);
    match (FirstOf(fs, Section), FirstOf(fs, Category), FirstOf(fs, Genre))
    case (Some(s), Some(c), Some(g)) =>
      if !IsBlank(query) then Success(BASE_URL + "/page/" + IntToString(page) + "?s=" + query)
      else BlankSearch(page, s, c, g)
    case _ => Failure("NullPointerException")
  }

  /**
   * `searchAnimeRequest`: the three casts, then the text query, then the
   * builder: `category/<section>` or `genre/<genre>`, `page/<page>`, and the
   * `type` parameter when a type is chosen.
   */
  method SearchAnimeRequest(page: int, query: string, filters: seq<Filter>) returns (r: Result<string>)
    ensures r == SearchUrl(page, query, filters)
  {
    var fs := if |filters| == 0 then Sheet([]) else filters;
    var section := FirstOf(fs, Section);
    var category := FirstOf(fs, Category);
    var genre := FirstOf(fs, Genre);
    if section.None? || category.None? || genre.None? {
      return Failure("NullPointerException");
    }
    if !IsBlank(query) {
      return Success(BASE_URL + "/page/" + IntToString(page) + "?s=" + query);
    }
    r := BlankRequest(page, section.value, category.value, genre.value);
  }

  /** The builder part of `searchAnimeRequest`, for a blank query. */
  method BlankRequest(page: int, section: nat, category: nat, genre: nat) returns (r: Result<string>)
    ensures r == BlankSearch(page, section, category, genre)
  {
    var first, second;
    if section != 0 {
      if section >= |SECTIONS| {
        return Failure("IndexOutOfBoundsException");
      }
      first, second := CATEGORY_SEGMENT, SECTIONS[section];
    } else if category != 0 {
      if genre >= |GENRES| {
        return Failure("IndexOutOfBoundsException");
      }
      first, second := GENRE_SEGMENT, Lowercase(GENRES[genre]);
    } else {
      return Failure(CHOOSE_MESSAGE);
    }
    assert ListingSegments(section, genre) == Success((first, second));
    var typeValue := None;
    if category != 0 {
      if category >= |CATEGORIES| {
        return Failure("IndexOutOfBoundsException");
      }
      typeValue := Some(CATEGORIES[category]);
    }
    var text := ListingRequest(first, second, PAGE_SEGMENT, IntToString(page), typeValue);
    r := Success(text);
  }

  /** The `type` parameter, when a type is chosen. */
  function TypeParams(typeValue: Option<string>): seq<(string, string)>
  {
    if typeValue.Some? then [(TYPE_PARAM, typeValue.value)] else []
  }

  /**
   * The builder on the site root: four path segments pushed in order, then
   * the `type` parameter when given. Each segment but the last must be
   * non-empty, or the next push would replace it.
   */
  method ListingRequest(first: string, second: string, third: string, fourth: string, typeValue: Option<string>)
    returns (text: string)
    requires first != "" && second != "" && third != ""
    ensures text == Render(BASE_URL, [Encode(first, false), Encode(second, false), Encode(third, false),
      Encode(fourth, false)], TypeParams(typeValue))
  {
    var url := new UrlBuilder(BASE_URL, [""]);
    var a, b, c, d := Encode(first, false), Encode(second, false), Encode(third, false), Encode(fourth, false);
    EncodeNonEmpty(first, false);
    EncodeNonEmpty(second, false);
    EncodeNonEmpty(third, false);
    url.AddPathSegment(first);
    assert url.segments == [a];
    url.AddPathSegment(second);
    assert url.segments == [a, b];
    url.AddPathSegment(third);
    assert url.segments == [a, b, c];
    url.AddPathSegment(fourth);
    assert url.segments == [a, b, c, d];
    if typeValue.Some? {
      url.AddQueryParameter(TYPE_PARAM, typeValue.value);
    }
    assert url.origin == BASE_URL && url.query == TypeParams(typeValue);
    text := url.ToString();
  }

  /** Lower-case letters, digits and `-`: nothing a path or query encoder escapes. */
  predicate Slug(s: string)
  {
    forall i :: 0 <= i < |s| ==> ('a' <= s[i] <= 'z') || ('0' <= s[i] <= '9') || s[i] == '-'
  }

  lemma SlugCharPlain(c: char)
    requires ('a' <= c <= 'z') || ('0' <= c <= '9') || c == '-'
    ensures !Escapes(c, false) && !Escapes(c, true)
  {
  }

  lemma SlugPlain(s: string)
    requires Slug(s)
    ensures Encode(s, false) == s && Encode(s, true) == s
  {
    forall k | 0 <= k < |s|
      ensures !Escapes(s[k], false) && !Escapes(s[k], true)
    {
      SlugCharPlain(s[k]);
    }
    EncodePlain(s, false);
    EncodePlain(s, true);
  }

  /** Latin letters, digits and `-`. */
  predicate Letters(s: string)
  {
    forall i :: 0 <= i < |s| ==> ('a' <= s[i] <= 'z') || ('A' <= s[i] <= 'Z') || ('0' <= s[i] <= '9') || s[i] == '-'
  }

  lemma LowercaseLetters(s: string)
    requires Letters(s)
    ensures Slug(Lowercase(s))
  {
  }

  lemma SectionSlugsFirst()
    ensures Slug(SECTIONS[0]) && Slug(SECTIONS[1]) && Slug(SECTIONS[2]) && Slug(SECTIONS[3])
  {
  }

  lemma SectionSlugsMiddle()
    ensures Slug(SECTIONS[4]) && Slug(SECTIONS[5]) && Slug(SECTIONS[6]) && Slug(SECTIONS[7])
  {
  }

  lemma SectionSlugsLast()
    ensures Slug(SECTIONS[8]) && Slug(SECTIONS[9]) && Slug(SECTIONS[10]) && Slug(SECTIONS[11])
  {
  }

  /** Every section value is a slug. */
  lemma SectionSlug(k: nat)
    requires k < |SECTIONS|
    ensures Slug(SECTIONS[k])
  {
    SectionSlugsFirst();
    SectionSlugsMiddle();
    SectionSlugsLast();
  }

  /** Every type value is a slug. */
  lemma CategorySlug(k: nat)
    requires k < |CATEGORIES|
    ensures Slug(CATEGORIES[k])
  {
  }

  lemma GenreLettersFirst()
    ensures Letters(GENRES[0]) && Letters(GENRES[1]) && Letters(GENRES[2]) && Letters(GENRES[3])
  {
  }

  lemma GenreLettersSecond()
    ensures Letters(GENRES[4]) && Letters(GENRES[5]) && Letters(GENRES[6]) && Letters(GENRES[7])
  {
  }

  lemma GenreLettersThird()
    ensures Letters(GENRES[8]) && Letters(GENRES[9]) && Letters(GENRES[10])
  {
  }

  lemma GenreLettersLast()
    ensures Letters(GENRES[11]) && Letters(GENRES[12]) && Letters(GENRES[13])
  {
  }

  /** Every genre, lowercased, is a slug. */
  lemma GenreSlug(k: nat)
    requires k < |GENRES|
    ensures Slug(Lowercase(GENRES[k]))
  {
    GenreLettersFirst();
    GenreLettersSecond();
    GenreLettersThird();
    GenreLettersLast();
    LowercaseLetters(GENRES[k]);
  }

  lemma PageSlug(page: nat)
    ensures Slug(IntToString(page))
  {
    NatTextAscii(page);
  }

  /**
   * A chosen section lists `/category/<section>/page/<page>`, with the
   * `type` parameter when a type is chosen too: the section wins over the
   * genre, and no segment needs escaping.
   */
  lemma SectionListing(page: nat, s: nat, c: nat, g: nat)
    requires 0 < s < |SECTIONS| && c < |CATEGORIES| && g < |GENRES|
    ensures BlankSearch(page, s, c, g) == Success(Render(BASE_URL, [CATEGORY_SEGMENT, SECTIONS[s], PAGE_SEGMENT, IntToString(page)],
      TypeParams(if c != 0 then Some(CATEGORIES[c]) else None)))
  {
    SectionSlug(s);
    PageSlug(page);
    assert Slug(CATEGORY_SEGMENT) && Slug(PAGE_SEGMENT);
    SlugPlain(CATEGORY_SEGMENT);
    SlugPlain(SECTIONS[s]);
    SlugPlain(PAGE_SEGMENT);
    SlugPlain(IntToString(page));
  }

  /** With no section but a type, the lowercased genre is listed and the type is sent. */
  lemma GenreListing(page: nat, c: nat, g: nat)
    requires 0 < c < |CATEGORIES| && g < |GENRES|
    ensures BlankSearch(page, 0, c, g) == Success(Render(BASE_URL, [GENRE_SEGMENT, Lowercase(GENRES[g]), PAGE_SEGMENT, IntToString(page)],
      [(TYPE_PARAM, CATEGORIES[c])]))
  {
    GenreSlug(g);
    PageSlug(page);
    assert Slug(GENRE_SEGMENT) && Slug(PAGE_SEGMENT);
    SlugPlain(GENRE_SEGMENT);
    SlugPlain(Lowercase(GENRES[g]));
    SlugPlain(PAGE_SEGMENT);
    SlugPlain(IntToString(page));
  }

  /** The default sheet with a blank query has neither a section nor a type: the request throws. */
  lemma DefaultSheetThrows(page: int, query: string)
    requires IsBlank(query)
    ensures SearchUrl(page, query, []) == Failure(CHOOSE_MESSAGE)
  {
    ChosenSelects(page, query, [], 1, 4, 5);
  }

  /** `find` reads the first filter of a kind, whatever comes after it. */
  lemma FirstOfAt(fs: seq<Filter>, kind: Kind, k: nat)
    requires k < |fs| && OfKind(fs[k], kind) && forall j :: 0 <= j < k ==> !OfKind(fs[j], kind)
    ensures FirstOf(fs, kind) == Some(fs[k].state)
  {
  }

  /**
   * For any sheet with a blank query: the first section, category and genre
   * selects decide the listing through `BlankSearch`.
   */
  lemma ChosenSelects(page: int, query: string, filters: seq<Filter>, i: nat, j: nat, l: nat)
    requires IsBlank(query)
    requires i < |Sheet(filters)| && Sheet(filters)[i].SectionFilter? && forall k :: 0 <= k < i ==> !Sheet(filters)[k].SectionFilter?
    requires j < |Sheet(filters)| && Sheet(filters)[j].CategoryFilter? && forall k :: 0 <= k < j ==> !Sheet(filters)[k].CategoryFilter?
    requires l < |Sheet(filters)| && Sheet(filters)[l].GenreFilter? && forall k :: 0 <= k < l ==> !Sheet(filters)[k].GenreFilter?
    ensures SearchUrl(page, query, filters) == BlankSearch(page, Sheet(filters)[i].state, Sheet(filters)[j].state, Sheet(filters)[l].state)
  {
    FirstOfAt(Sheet(filters), Section, i);
    FirstOfAt(Sheet(filters), Category, j);
    FirstOfAt(Sheet(filters), Genre, l);
  }

  /**
   * The sheet the app builds, with any states: a blank query lists what
   * `BlankSearch` makes of the three selects; a text query searches.
   */
  lemma AppSheet(page: int, query: string, s: nat, c: nat, g: nat)
    ensures var r := SearchUrl(page, query, [OtherFilter, SectionFilter(s), OtherFilter, OtherFilter, CategoryFilter(c), GenreFilter(g)]);
      (IsBlank(query) ==> r == BlankSearch(page, s, c, g))
      && (!IsBlank(query) ==> r == Success(BASE_URL + "/page/" + IntToString(page) + "?s=" + query))
  {
    var fs := [OtherFilter, SectionFilter(s), OtherFilter, OtherFilter, CategoryFilter(c), GenreFilter(g)];
    FirstOfAt(fs, Section, 1);
    FirstOfAt(fs, Category, 4);
    FirstOfAt(fs, Genre, 5);
  }
}
