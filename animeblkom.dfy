/**
 * Anime Blkom: the preferred-quality insertion loop, the download links of
 * the player page, the poster title and thumbnail, the episode entry, the
 * details status and the search URL.
 */
module AnimeBlkom {
  import opened Wrappers
  import opened KotlinText
  import opened Media
  import opened Prioritise

  const BASE_URL: string := "https://animeblkom.net"

  // ---------------------------------------------------------------------
  // Video order
  // ---------------------------------------------------------------------

  /**
   * `List<Video>.sort()`: with no stored preference (`null`) the list as it
   * is, otherwise the insertion loop moves the videos whose quality contains
   * the preference to the front.
   */
  method Sort(videos: seq<Video>, quality: Option<string>) returns (r: seq<Video>)
    ensures quality.None? ==> r == videos
    ensures quality.Some? ==> r == PreferredFirst(videos, quality.value, Substring)
  {
    if quality.Some? {
      r := InsertPreferred(videos, quality.value, Substring);
      return;
    }
    r := videos;
  }

  /**
   * The insertion loop only reorders, puts every video whose quality
   * contains `pref` before every other, and keeps each group in input order.
   */
  lemma SortPreferredFirst(vs: seq<Video>, pref: string)
    ensures var r := PreferredFirst(vs, pref, Substring);
      |r| == |vs| && multiset(r) == multiset(vs)
      && (forall i, j :: 0 <= i < j < |r| && Contains(r[j].quality, pref) ==> Contains(r[i].quality, pref))
      && Keep(r, Test(pref, Substring), true) == Keep(vs, Test(pref, Substring), true)
      && Keep(r, Test(pref, Substring), false) == Keep(vs, Test(pref, Substring), false)
  {
    var r := PreferredFirst(vs, pref, Substring);
    PreferredFirstPermutation(vs, pref, Substring);
    assert |r| == |multiset(r)| == |multiset(vs)| == |vs|;
    PreferredFirstOrder(vs, pref, Substring);
    PreferredFirstStable(vs, pref, Substring);
  }

  // ---------------------------------------------------------------------
  // Videos
  // ---------------------------------------------------------------------

  /** A `source` element of the player page: its `src` and `res` attributes. */
  datatype Source = Source(src: string, res: string)

  /** The player's "watch" link becomes the "download" link. */
  function DownloadUrl(src: string): string
  {
    Replace(src, "watch", "download")
  }

  /** `videoFromElement`: the download link as both addresses, the resolution with "p" as the quality. */
  function VideoFromElement(s: Source): (v: Video)
    ensures v.url == v.videoUrl == DownloadUrl(s.src)
    ensures EndsWith(v.quality, "p") && RemoveSuffix(v.quality, "p") == s.res
  {
    var q := s.res + "p";
    assert q[|q| - 1..] == "p";
    Video(DownloadUrl(s.src), q, DownloadUrl(s.src))
  }

  /** `videoListParse` after the player page is fetched: one video per `source`, in document order. */
  function VideoList(sources: seq<Source>): (r: seq<Video>)
    ensures |r| == |sources| && forall k :: 0 <= k < |sources| ==> r[k] == VideoFromElement(sources[k])
  {
    seq(|sources|, k requires 0 <= k < |sources| => VideoFromElement(sources[k]))
  }

  /** A link `<a>watch<b>` with one "watch" downloads from `<a>download<b>`. */
  lemma WatchBecomesDownload(a: string, b: string)
    requires FirstAtEnd(a, "watch") && !Contains(b, "watch")
    ensures DownloadUrl(a + "watch" + b) == a + "download" + b
  {
    ReplaceFirst(a, "watch", b, "download");
    ReplaceAbsent(b, "watch", "download");
  }

  /** A link without "watch" is kept. */
  lemma NoWatchKept(src: string)
    requires !Contains(src, "watch")
    ensures DownloadUrl(src) == src
  {
    ReplaceAbsent(src, "watch", "download");
  }

  // ---------------------------------------------------------------------
  // Listing entries and details
  // ---------------------------------------------------------------------

  const POSTER_WORD: string := " poster"

  /** The title: the image's `alt` with a leading " poster" removed. */
  function Title(alt: string): string
  {
    RemovePrefix(alt, POSTER_WORD)
  }

  /** The thumbnail: the site address and the image's `data-original`, whatever that holds. */
  function Thumbnail(dataOriginal: string): string
  {
    BASE_URL + dataOriginal
  }

  /** Only a leading " poster" is removed: a trailing one stays in the title. */
  lemma PosterTitle(t: string)
    ensures Title(POSTER_WORD + t) == t
    ensures t != "" && t[0] != ' ' ==> Title(t + POSTER_WORD) == t + POSTER_WORD
  {
    assert (POSTER_WORD + t)[..|POSTER_WORD|] == POSTER_WORD;
    if t != "" && t[0] != ' ' {
      assert (t + POSTER_WORD)[..|POSTER_WORD|][0] == t[0] != POSTER_WORD[0];
    }
  }

  /** The thumbnail always starts with the site address, and the attribute reads back after it. */
  lemma ThumbnailReadBack(dataOriginal: string)
    ensures StartsWith(Thumbnail(dataOriginal), BASE_URL)
    ensures RemovePrefix(Thumbnail(dataOriginal), BASE_URL) == dataOriginal
  {
    assert Thumbnail(dataOriginal)[..|BASE_URL|] == BASE_URL;
    assert Thumbnail(dataOriginal)[|BASE_URL|..] == dataOriginal;
  }

  /** An episode link: its `href`, and the texts of its first and third `span`. */
  datatype EpisodeLink = EpisodeLink(href: string, firstSpan: string, thirdSpan: string)

  /**
   * `episodeFromElement`: the third span without " - " is the number, and a
   * text that is not a number throws; the name is the third span, " :" and
   * the first span.
   */
  function EpisodeFromElement(l: EpisodeLink): (r: Result<Episode>)
    ensures r.Success? <==> ToFloat(Replace(l.thirdSpan, " - ", "")).Success?
    ensures r.Success? ==> r.value == Episode(l.href, l.thirdSpan + " :" + l.firstSpan, Some(Replace(l.thirdSpan, " - ", "")))
  {
    match ToFloat(Replace(l.thirdSpan, " - ", ""))
    case Failure(e) => Failure(e)
    case Success(n) => Success(Episode(l.href, l.thirdSpan + " :" + l.firstSpan, Some(n)))
  }

  /** The episode list: one entry per link in page order; the first link that throws ends it. */
  function EpisodeList(links: seq<EpisodeLink>): (r: Result<seq<Episode>>)
    ensures r.Success? <==> forall k :: 0 <= k < |links| ==> EpisodeFromElement(links[k]).Success?
    ensures r.Success? ==> |r.value| == |links| && forall k :: 0 <= k < |links| ==> r.value[k] == EpisodeFromElement(links[k]).value
  {
    if |links| == 0 then Success([])
    else
      var front := links[..|links| - 1];
      assert forall k :: 0 <= k < |front| ==> front[k] == links[k];
      match EpisodeList(front)
      case Failure(e) => Failure(e)
      case Success(es) =>
        match EpisodeFromElement(links[|links| - 1])
        case Failure(e) => Failure(e)
        case Success(ep) => Success(es + [ep])
  }

  /** A third span " - <n>" is episode n. */
  lemma DashedNumber(href: string, first: string, n: nat)
    ensures EpisodeFromElement(EpisodeLink(href, first, " - " + IntToString(n))).Success?
    ensures EpisodeFromElement(EpisodeLink(href, first, " - " + IntToString(n))).value.number == Some(IntToString(n))
  {
    NatTextAscii(n);
    assert ' ' !in IntToString(n);
    NoFirstCharNoOccurrence(IntToString(n), " - ");
    ReplaceLeading(" - ", IntToString(n), "");
    assert "" + IntToString(n) == IntToString(n);
    NatTextIsFloat(n);
  }

  /** A third span that is no number makes the episode list throw. */
  lemma WordThrows(href: string, first: string, word: string)
    requires word != "" && forall i :: 0 <= i < |word| ==> 'a' <= word[i] <= 'z'
    ensures EpisodeFromElement(EpisodeLink(href, first, word)).Failure?
  {
    NoFirstCharNoOccurrence(word, " - ");
    ReplaceAbsent(word, " - ", "");
    assert !IsAsciiDigit(word[0]) && word[0] != '.';
  }

  /** The name reads back: the third span before the first ":", the first span after it. */
  lemma EpisodeNameReadBack(third: string, first: string)
    requires ':' !in third
    ensures SubstringBefore(third + " :" + first, ":") == third + " "
    ensures SubstringAfter(third + " :" + first, ":") == first
  {
    assert ':' !in third + " ";
    FirstAtEndChar(third + " ", ':');
    assert third + " :" + first == (third + " ") + ":" + first;
    FirstOccurrence(third + " ", ":", first);
  }

  const ONGOING_MARK: string := "مستمر"
  const COMPLETED_MARK: string := "مكتمل"

  /** The status from the `span.info` texts: "ongoing" wins over "completed". */
  function StatusOf(info: string): (r: Status)
    ensures r == Ongoing <==> Contains(info, ONGOING_MARK)
    ensures r == Completed <==> !Contains(info, ONGOING_MARK) && Contains(info, COMPLETED_MARK)
    ensures r == Unknown <==> !Contains(info, ONGOING_MARK) && !Contains(info, COMPLETED_MARK)
  {
    if Contains(info, ONGOING_MARK) then Ongoing else if Contains(info, COMPLETED_MARK) then Completed else Unknown
  }

  /** Info text saying both is ongoing. */
  lemma OngoingBeatsCompleted(a: string, b: string, c: string)
    ensures StatusOf(a + COMPLETED_MARK + b + ONGOING_MARK + c) == Ongoing
  {
    var t := a + COMPLETED_MARK + b + ONGOING_MARK + c;
    var i := |a| + |COMPLETED_MARK| + |b|;
    assert t[i..i + |ONGOING_MARK|] == ONGOING_MARK;
    OccursAtContains(t, ONGOING_MARK, i);
  }

  // ---------------------------------------------------------------------
  // Search
  // ---------------------------------------------------------------------

  /** `searchAnimeRequest`: the query and the page as parameters, the filters unused. */
  function SearchUrl(page: int, query: string): string
  {
    BASE_URL + "/search" + "?query=" + query + "&page=" + IntToString(page)
  }

  /** A query without "&" reads back between "?query=" and the next "&". */
  lemma SearchQueryReadBack(page: int, query: string)
    requires '&' !in query
    ensures SubstringBefore(SubstringAfter(SearchUrl(page, query), "?query="), "&page=") == query
  {
    FirstAtEndFirstChar(BASE_URL + "/search", "?query=");
    FirstAtEndFirstChar(query, "&page=");
    Between(BASE_URL + "/search", "?query=", query, "&page=", IntToString(page));
  }
}
