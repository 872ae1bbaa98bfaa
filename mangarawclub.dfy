/**
 * manga-raw.club: the details page read into a manga, the chapter name and
 * date clean-up, the page list and the search request.
 */
module MangaRawClub {
  import opened Wrappers
  import opened KotlinText
  import opened Media
  import opened HttpUrl

  const BASE_URL: string := "https://www.manga-raw.club"
  /** The placeholder the site shows for a field it does not know yet. */
  const UPDATING: string := "Updating"
  const SUMMARY_MARK: string := "The Summary is"
  const ALT_NAME: string := "Alternative Name: "
  const ALT_SEPARATOR: string := "\n\n"

  // ---------------------------------------------------------------------
  // Details
  // ---------------------------------------------------------------------

  /**
   * What `mangaDetailsParse` reads from the page: the `title` of the first
   * `.author a` ("" when there is none), the text of the first
   * `.description` and of the first `.alternative-title` (likewise), the
   * `title`s of the genre links, whether `div.header-stats` has a
   * `strong.completed` or a `strong.ongoing`, and the cover's `data-src`
   * and `src`.
   */
  datatype DetailsPage = DetailsPage(authorTitle: string, descriptionText: string, otherTitle: string,
                                     genreTitles: seq<string>, completedMarker: bool, ongoingMarker: bool,
                                     coverDataSrc: string, coverSrc: string)

  datatype Manga = Manga(author: Option<string>, description: string, genre: string, status: Status, thumbnail: string)

  /** The author, `null` for the "Updating" placeholder. */
  function Author(title: string): (r: Option<string>)
    ensures r.None? <==> title == UPDATING
    ensures r.Some? ==> r.value == title
  {
    if title != UPDATING then Some(title) else None
  }

  /** The summary after "The Summary is", then the alternative title unless it is the placeholder, trimmed. */
  function Description(text: string, otherTitle: string): string
  {
    var description := Trim(SubstringAfter(text, SUMMARY_MARK));
    var withAlt := if otherTitle != UPDATING then description + ALT_SEPARATOR + ALT_NAME + otherTitle else description;
    Trim(withAlt)
  }

  /** A genre link's title without a trailing "Genre", trimmed. */
  function GenreName(title: string): string
  {
    Trim(RemoveSuffix(title, "Genre"))
  }

  function GenreNames(titles: seq<string>): (r: seq<string>)
    ensures |r| == |titles|
    ensures forall k :: 0 <= k < |titles| ==> r[k] == GenreName(titles[k])
  {
    if |titles| == 0 then []
    else
      var front := titles[..|titles| - 1];
      assert forall k :: 0 <= k < |front| ==> front[k] == titles[k];
      GenreNames(front) + [GenreName(titles[|titles| - 1])]
  }

  /** The status markers in precedence order: completed, then ongoing, else unknown. */
  function StatusOf(completed: bool, ongoing: bool): (r: Status)
    ensures r == Completed <==> completed
    ensures r == Ongoing <==> !completed && ongoing
    ensures r == Unknown <==> !completed && !ongoing
  {
    if completed then Completed else if ongoing then Ongoing else Unknown
  }

  /** The cover: `data-src` when it is non-empty, otherwise `src`. */
  function Cover(dataSrc: string, src: string): (r: string)
    ensures dataSrc != "" ==> r == dataSrc
    ensures dataSrc == "" ==> r == src
  {
    if dataSrc != "" then dataSrc else src
  }

  /** The manga the details page describes. */
  function DetailsOf(p: DetailsPage): Manga
  {
    Manga(Author(p.authorTitle), Description(p.descriptionText, p.otherTitle), Join(GenreNames(p.genreTitles), ", "),
          StatusOf(p.completedMarker, p.ongoingMarker), Cover(p.coverDataSrc, p.coverSrc))
  }

  /** `mangaDetailsParse`: `description` reassigned step by step and the `genres` list filled link by link. */
  method MangaDetailsParse(p: DetailsPage) returns (manga: Manga)
    ensures manga == DetailsOf(p)
  {
    var author := p.authorTitle;
    var authorField := if author != UPDATING then Some(author) else None;

    var description := p.descriptionText;
    description := Trim(SubstringAfter(description, SUMMARY_MARK));
    var otherTitle := p.otherTitle;
    if otherTitle != UPDATING {
      description := description + ALT_SEPARATOR + ALT_NAME + otherTitle;
    }
    description := Trim(description);

    var genres := CollectGenres(p.genreTitles);

    var status := if p.completedMarker then Completed else if p.ongoingMarker then Ongoing else Unknown;
    var thumbnail := if p.coverDataSrc != "" then p.coverDataSrc else p.coverSrc;
    manga := Manga(authorField, description, Join(genres, ", "), status, thumbnail);
  }

  /** The `forEach` over the genre links. */
  method CollectGenres(titles: seq<string>) returns (genres: seq<string>)
    ensures genres == GenreNames(titles)
  {
    genres := [];
    for i := 0 to |titles|
      invariant genres == GenreNames(titles[..i])
    {
      GenreNamesSnoc(titles, i);
      genres := genres + [GenreName(titles[i])];
    }
    assert titles[..|titles|] == titles;
  }

  /** One more link adds its genre name at the end. */
  lemma GenreNamesSnoc(titles: seq<string>, i: nat)
    requires i < |titles|
    ensures GenreNames(titles[..i + 1]) == GenreNames(titles[..i]) + [GenreName(titles[i])]
  {
    assert titles[..i + 1][..i] == titles[..i];
  }

  /** With the placeholder alternative title the description is the trimmed summary alone, and trimming it again changes nothing. */
  lemma SummaryOnly(text: string)
    ensures Description(text, UPDATING) == Trim(SubstringAfter(text, SUMMARY_MARK))
    ensures Trim(Description(text, UPDATING)) == Description(text, UPDATING)
  {
    TrimIdempotent(SubstringAfter(text, SUMMARY_MARK));
  }

  /**
   * A known alternative title follows the summary after a blank line; with
   * no summary the description starts at "Alternative Name: ".
   */
  lemma SummaryThenAlternative(text: string, otherTitle: string)
    requires otherTitle != UPDATING && |otherTitle| > 0 && !IsWhitespace(otherTitle[|otherTitle| - 1])
    ensures var d := Trim(SubstringAfter(text, SUMMARY_MARK));
      Description(text, otherTitle) == if d == "" then ALT_NAME + otherTitle else d + ALT_SEPARATOR + ALT_NAME + otherTitle
  {
    var d := Trim(SubstringAfter(text, SUMMARY_MARK));
    var tail := ALT_NAME + otherTitle;
    assert d + ALT_SEPARATOR + ALT_NAME + otherTitle == d + ALT_SEPARATOR + tail;
    if d == "" {
      NoSummary(tail);
    } else {
      TrimProperties(SubstringAfter(text, SUMMARY_MARK));
      WithSummary(d, tail);
    }
  }

  lemma NoSummary(tail: string)
    requires |tail| > 0 && !IsWhitespace(tail[0]) && !IsWhitespace(tail[|tail| - 1])
    ensures Trim("" + ALT_SEPARATOR + tail) == tail
  {
    assert "" + ALT_SEPARATOR + tail == ALT_SEPARATOR + tail + "";
    TrimPadded(ALT_SEPARATOR, tail, "");
  }

  lemma WithSummary(d: string, tail: string)
    requires |d| > 0 && !IsWhitespace(d[0]) && |tail| > 0 && !IsWhitespace(tail[|tail| - 1])
    ensures Trim(d + ALT_SEPARATOR + tail) == d + ALT_SEPARATOR + tail
  {
    var all := d + ALT_SEPARATOR + tail;
    assert all[0] == d[0];
    assert all[|all| - 1] == tail[|tail| - 1];
    TrimClean(all);
  }

  /** A genre title without commas gives a name without commas. */
  lemma GenreNameNoComma(title: string)
    requires ',' !in title
    ensures ',' !in GenreName(title)
  {
    var r := RemoveSuffix(title, "Genre");
    assert forall k :: 0 <= k < |r| ==> r[k] == title[k];
    TrimProperties(r);
  }

  /** The genre field splits back on ", " into the genre names, in link order. */
  lemma GenresReadBack(titles: seq<string>)
    requires |titles| > 0 && forall k :: 0 <= k < |titles| ==> ',' !in titles[k]
    ensures Split(Join(GenreNames(titles), ", "), ", ") == GenreNames(titles)
  {
    var names := GenreNames(titles);
    forall k | 0 <= k < |names|
      ensures ',' !in names[k]
    {
      GenreNameNoComma(titles[k]);
    }
    forall k | 0 <= k < |names| - 1
      ensures FirstAtEnd(names[k], ", ")
    {
      FirstAtEndFirstChar(names[k], ", ");
    }
    NoFirstCharNoOccurrence(names[|names| - 1], ", ");
    SplitOfJoin(names, ", ");
  }

  /** A genre link titled `<name>Genre` with a clean name is the genre `<name>`. */
  lemma GenreSuffixDropped(name: string)
    requires |name| > 0 && !IsWhitespace(name[0]) && !IsWhitespace(name[|name| - 1])
    ensures GenreName(name + "Genre") == name
  {
    assert EndsWith(name + "Genre", "Genre") by {
      assert (name + "Genre")[|name|..] == "Genre";
    }
    TrimClean(name);
  }

  // ---------------------------------------------------------------------
  // Chapters
  // ---------------------------------------------------------------------

  const SLUG_TAIL: string := "-eng-li"

  /**
   * A chapter: its link, its name, and the date text handed to the date
   * parser (`None` when the `datetime` attribute is empty and the upload
   * date is left as it was).
   */
  datatype Chapter = Chapter(url: string, name: string, dateText: Option<string>)

  /** "Chapter " and the title without a trailing "-eng-li". */
  function ChapterName(title: string): string
  {
    "Chapter " + RemoveSuffix(title, SLUG_TAIL)
  }

  /** `parseChapterDate` before the parse: every "." removed, then "Sept" shortened to "Sep". */
  function NormaliseDate(date: string): (r: Option<string>)
    ensures r.None? <==> date == ""
  {
    if date == "" then None else Some(Replace(Replace(date, ".", ""), "Sept", "Sep"))
  }

  /** `chapterFromElement`. */
  function ChapterFromElement(href: string, title: string, datetime: string): Chapter
  {
    Chapter(href, ChapterName(title), NormaliseDate(datetime))
  }

  /** A slug title loses its "-eng-li" tail; any other title is kept whole. */
  lemma ChapterNameOfTitle(t: string)
    ensures ChapterName(t + SLUG_TAIL) == "Chapter " + t
    ensures !EndsWith(t, SLUG_TAIL) ==> ChapterName(t) == "Chapter " + t
  {
    assert EndsWith(t + SLUG_TAIL, SLUG_TAIL) by {
      assert (t + SLUG_TAIL)[|t|..] == SLUG_TAIL;
    }
  }

  /** The text handed to the parser has no "." left. */
  lemma NormalisedHasNoDots(date: string)
    requires date != ""
    ensures '.' !in NormaliseDate(date).value
  {
    RemoveCharGone(date, '.');
    ReplaceKeepsOut(Replace(date, ".", ""), "Sept", "Sep", '.');
  }

  /** The site's "Sept." abbreviation reaches the parser as "Sep". */
  lemma SeptemberAbbreviation(rest: string)
    requires '.' !in rest && 'S' !in rest
    ensures NormaliseDate("Sept. " + rest) == Some("Sep " + rest)
  {
    var date := "Sept. " + rest;
    assert date == "Sept" + "." + (" " + rest);
    FirstAtEndChar("Sept", '.');
    ReplaceFirst("Sept", ".", " " + rest, "");
    assert Replace(date, ".", "") == "Sept" + "" + Replace(" " + rest, ".", "");
    NoFirstCharNoOccurrence(" " + rest, ".");
    ReplaceAbsent(" " + rest, ".", "");
    assert Replace(date, ".", "") == "Sept" + (" " + rest);
    NoFirstCharNoOccurrence(" " + rest, "Sept");
    ReplaceLeading("Sept", " " + rest, "Sep");
    assert "Sep" + (" " + rest) == "Sep " + rest;
  }

  // ---------------------------------------------------------------------
  // Pages
  // ---------------------------------------------------------------------

  /** `pageListParse`: one page per `.page-in img[onerror]`, numbered from 0 in document order. */
  method PageListParse(sources: seq<string>) returns (pages: seq<Page>)
    ensures |pages| == |sources|
    ensures forall i :: 0 <= i < |sources| ==> pages[i] == Page(i, "", sources[i])
  {
    pages := [];
    for i := 0 to |sources|
      invariant |pages| == i
      invariant forall j :: 0 <= j < i ==> pages[j] == Page(j, "", sources[j])
    {
      pages := pages + [Page(i, "", sources[i])];
    }
  }

  // ---------------------------------------------------------------------
  // Search
  // ---------------------------------------------------------------------

  /** The `second` of each entry of the "Order" select. */
  const ORDER_PARTS: seq<string> := ["Random", "Updated", "New", "views"]

  /** The `second` of each entry of the "Genres" select. */
  const GENRE_PARTS: seq<string> := [
    "", "R-18", "Action", "Adult", "Adventure", "Comedy", "Cooking", "Doujinshi", "Drama", "Ecchi", "Fantasy",
    "Gender bender", "Harem", "Historical", "Horror", "Isekai", "Josei", "ladies", "Manhua", "Manhwa",
    "Martial arts", "Mature", "Mecha", "Medical", "Mystery", "One shot", "Psychological", "Romance",
    "School life", "Sci fi", "Seinen", "Shoujo", "Shounen", "Slice of life", "Sports", "Supernatural",
    "Tragedy", "Webtoons"
  ]

  /** A filter of the sheet: the "Order" select, the "Genres" select, or the header and separator. */
  datatype Filter = Order(state: nat) | GenrePairs(state: nat) | Inert

  /** `getFilterList()`: the header, the separator, "Order" and "Genres" at their first entries. */
  const DEFAULT_FILTERS: seq<Filter> := [Inert, Inert, Order(0), GenrePairs(0)]

  /** The parameter one filter adds (`toUriPart()`); a state past the table's end throws. */
  function FilterParam(f: Filter): Result<seq<(string, string)>>
  {
    match f
    case Order(s) => if s < |ORDER_PARTS| then Success([("filter", ORDER_PARTS[s])]) else Failure("ArrayIndexOutOfBoundsException")
    case GenrePairs(s) => if s < |GENRE_PARTS| then Success([("genre", GENRE_PARTS[s])]) else Failure("ArrayIndexOutOfBoundsException")
    case Inert => Success([])
  }

  /** The filters' parameters in sheet order; the first filter that throws ends the walk. */
  function FilterParams(fs: seq<Filter>): Result<seq<(string, string)>>
  {
    if |fs| == 0 then Success([])
    else
      match FilterParams(fs[..|fs| - 1])
      case Failure(e) => Failure(e)
      case Success(ps) =>
        match FilterParam(fs[|fs| - 1])
        case Failure(e) => Failure(e)
        case Success(p) => Success(ps + p)
  }

  /** The listing path `/browse-comics/`: its segments end in the empty segment of the trailing `/`. */
  const BROWSE_PATH: seq<string> := ["browse-comics", ""]

  /**
   * `searchMangaRequest`: a non-empty query searches by text and ignores the
   * filters; otherwise the listing with the page and each filter's parameter.
   */
  function SearchUrl(page: int, query: string, filters: seq<Filter>): Result<string>
  {
    if |query| > 0 then Success(BASE_URL + "/search/?search=" + query)
    else
      match FilterParams(filters)
      case Failure(e) => Failure(e)
      case Success(ps) => Success(Render(BASE_URL, BROWSE_PATH, [("results", IntToString(page))] + ps))
  }

  /** The request built as the source does: a URL builder with a parameter added per filter. */
  method SearchMangaRequest(page: int, query: string, filters: seq<Filter>) returns (r: Result<string>)
    ensures r == SearchUrl(page, query, filters)
  {
    if |query| > 0 {
      return Success(BASE_URL + "/search/?search=" + query);
    }
    var url := new UrlBuilder(BASE_URL, BROWSE_PATH);
    url.AddQueryParameter("results", IntToString(page));
    assert filters[..0] == [];
    for i := 0 to |filters|
      invariant url.origin == BASE_URL && url.segments == BROWSE_PATH
      invariant FilterParams(filters[..i]).Success?
      invariant url.query == [("results", IntToString(page))] + FilterParams(filters[..i]).value
    {
      assert filters[..i + 1][..i] == filters[..i];
      var ps := FilterParam(filters[i]);
      if ps.Failure? {
        FilterParamsPrefix(filters, i + 1);
        return Failure(ps.error);
      }
      if |ps.value| > 0 {
        url.AddQueryParameter(ps.value[0].0, ps.value[0].1);
      }
      assert url.query == [("results", IntToString(page))] + FilterParams(filters[..i]).value + ps.value;
    }
    assert filters[..|filters|] == filters;
    r := Success(url.ToString());
  }

  /** Once a prefix of the filters throws, the whole walk throws the same. */
  lemma {:induction false} FilterParamsPrefix(fs: seq<Filter>, i: nat)
    requires i <= |fs| && FilterParams(fs[..i]).Failure?
    ensures FilterParams(fs) == FilterParams(fs[..i])
    decreases |fs| - i
  {
    if i == |fs| {
      assert fs[..i] == fs;
    } else {
      var front := fs[..|fs| - 1];
      assert front[..i] == fs[..i];
      FilterParamsPrefix(front, i);
    }
  }

  /** A text search is the same whatever the filters say. */
  lemma TextSearchIgnoresFilters(page: int, query: string, f1: seq<Filter>, f2: seq<Filter>)
    requires |query| > 0
    ensures SearchUrl(page, query, f1) == SearchUrl(page, query, f2)
    ensures SearchUrl(page, query, f1) == Success(BASE_URL + "/search/?search=" + query)
  {
  }

  /** The untouched sheet asks for the random order and every genre, after the page. */
  lemma DefaultSheetParams()
    ensures FilterParams(DEFAULT_FILTERS) == Success([("filter", "Random"), ("genre", "")])
  {
    var none: seq<(string, string)> := [];
    assert FilterParam(Inert) == Success(none);
    assert none + none == none;
    assert none + [("filter", "Random")] == [("filter", "Random")];
    assert FilterParam(Order(0)) == Success([("filter", "Random")]);
    assert FilterParam(GenrePairs(0)) == Success([("genre", "")]);
    FilterParamsSnoc([], Inert);
    assert [] + [Inert] == [Inert];
    assert FilterParams([Inert]) == Success(none);
    FilterParamsSnoc([Inert], Inert);
    assert [Inert] + [Inert] == [Inert, Inert];
    assert FilterParams([Inert, Inert]) == Success(none);
    FilterParamsSnoc([Inert, Inert], Order(0));
    assert [Inert, Inert] + [Order(0)] == [Inert, Inert, Order(0)];
    assert FilterParams([Inert, Inert, Order(0)]) == Success([("filter", "Random")]);
    FilterParamsSnoc([Inert, Inert, Order(0)], GenrePairs(0));
    assert [Inert, Inert, Order(0)] + [GenrePairs(0)] == DEFAULT_FILTERS;
    assert [("filter", "Random")] + [("genre", "")] == [("filter", "Random"), ("genre", "")];
  }

  /** One more filter: its parameter goes after the others', or its failure ends the walk. */
  lemma FilterParamsSnoc(fs: seq<Filter>, f: Filter)
    ensures FilterParams(fs + [f]) == match FilterParams(fs)
      case Failure(e) => Failure(e)
      case Success(ps) => (match FilterParam(f) case Failure(e) => Failure(e) case Success(p) => Success(ps + p))
  {
    assert (fs + [f])[..|fs|] == fs;
  }
}
