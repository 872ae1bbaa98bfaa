/**
 * AnimeFLV: the insertion-loop video order, the episode list read from the
 * `anime_info` and `episodes` arrays of the anime page's scripts, the status
 * classifier, the cover-image URL and the search request.
 */
module AnimeFlv {
  import opened Wrappers
  import opened KotlinText
  import opened Media
  import opened Prioritise

  const BASE_URL: string := "https://www3.animeflv.net"

  // ---------------------------------------------------------------------
  // Video order
  // ---------------------------------------------------------------------

  /** The quality preferred when none is stored. */
  const QUALITY_DEFAULT: string := "Stape"

  /**
   * `List<Video>.sort()`: the stored preference, or "Stape" when none is
   * stored, and the insertion loop moves the videos labelled exactly that
   * to the front. The lookup has a non-null default, so the source's
   * `quality == null` branch, which returns the list unchanged, is never
   * taken.
   */
  method Sort(videos: seq<Video>, stored: Option<string>) returns (r: seq<Video>)
    ensures r == PreferredFirst(videos, stored.GetOr(QUALITY_DEFAULT), Exact)
  {
    var quality := stored.GetOr(QUALITY_DEFAULT);
    r := InsertPreferred(videos, quality, Exact);
  }

  /** With nothing stored, a "Stape" video moves ahead of one labelled otherwise. */
  lemma NothingStoredStapeFirst(other: Video, stape: Video)
    requires other.quality != QUALITY_DEFAULT && stape.quality == QUALITY_DEFAULT
    ensures PreferredFirst([other, stape], None.GetOr(QUALITY_DEFAULT), Exact) == [stape, other]
  {
    var t := Test(QUALITY_DEFAULT, Exact);
    assert Keep([other, stape], t, true) == [stape] by {
      assert [other, stape][1..] == [stape];
    }
    assert Keep([other, stape], t, false) == [other] by {
      assert [other, stape][1..] == [stape];
    }
  }

  /**
   * The insertion loop only reorders, puts every video labelled exactly
   * `pref` before every other, and keeps each group in its input order.
   */
  lemma SortPreferredFirst(vs: seq<Video>, pref: string)
    ensures var r := PreferredFirst(vs, pref, Exact);
      |r| == |vs| && multiset(r) == multiset(vs)
      && (forall i, j :: 0 <= i < j < |r| && r[j].quality == pref ==> r[i].quality == pref)
      && Keep(r, Test(pref, Exact), true) == Keep(vs, Test(pref, Exact), true)
      && Keep(r, Test(pref, Exact), false) == Keep(vs, Test(pref, Exact), false)
  {
    var r := PreferredFirst(vs, pref, Exact);
    PreferredFirstPermutation(vs, pref, Exact);
    assert |r| == |multiset(r)| == |multiset(vs)| == |vs|;
    PreferredFirstOrder(vs, pref, Exact);
    PreferredFirstStable(vs, pref, Exact);
  }

  // ---------------------------------------------------------------------
  // Episodes
  // ---------------------------------------------------------------------

  /** A script holding this text describes the anime. */
  const SCRIPT_MARK: string := "var anime_info ="
  const INFO_OPEN: string := "var anime_info = ["
  const EPISODES_OPEN: string := "var episodes = ["
  const ARRAY_CLOSE: string := "];"
  /** What separates two entries of the episodes array. */
  const ENTRY_SEP: string := "],["

  /** The anime's URI: the third comma field of `anime_info`, quotes removed; too few fields throw. */
  function AnimeUri(data: string): (r: Result<string>)
    ensures r.Failure? <==> |Split(SubstringBefore(SubstringAfter(data, INFO_OPEN), ARRAY_CLOSE), ",")| < 3
    ensures r.Success? ==> '"' !in r.value
  {
    var fields := Split(SubstringBefore(SubstringAfter(data, INFO_OPEN), ARRAY_CLOSE), ",");
    if |fields| < 3 then Failure("IndexOutOfBoundsException")
    else
      RemoveCharGone(fields[2], '"');
      Success(Replace(fields[2], "\"", ""))
  }

  /** The entries of the episodes array: its trimmed text split on `],[`. */
  function EpisodeEntries(data: string): (r: seq<string>)
    ensures |r| >= 1
  {
    Split(Trim(SubstringBefore(SubstringAfter(data, EPISODES_OPEN), ARRAY_CLOSE)), ENTRY_SEP)
  }

  /** An entry's episode number: its first comma field once `[` and `]` are removed. */
  function EntryNumber(entry: string): string
  {
    Split(Replace(Replace(entry, "[", ""), "]", ""), ",")[0]
  }

  function EpisodeFor(uri: string, n: string): Episode
  {
    Episode(BASE_URL + "/ver/" + uri + "-" + n, "Episodio " + n, Some(n))
  }

  /** Every entry's number reads as a float (`noEpisode.toFloat()` does not throw). */
  predicate AllNumbered(entries: seq<string>)
  {
    forall k :: 0 <= k < |entries| ==> ToFloat(EntryNumber(entries[k])).Success?
  }

  /**
   * One episode per entry, in array order; an entry whose number does not
   * read as a float throws, and the whole parse with it.
   */
  function ArrayEpisodes(uri: string, entries: seq<string>): (r: Result<seq<Episode>>)
    ensures r.Success? <==> AllNumbered(entries)
    ensures r.Failure? ==> r.error == "NumberFormatException"
    ensures r.Success? ==> |r.value| == |entries|
    ensures r.Success? ==> forall k :: 0 <= k < |entries| ==> r.value[k] == EpisodeFor(uri, EntryNumber(entries[k]))
  {
    if |entries| == 0 then Success([])
    else
      var front := entries[..|entries| - 1];
      var n := EntryNumber(entries[|entries| - 1]);
      assert forall k :: 0 <= k < |front| ==> front[k] == entries[k];
      match ArrayEpisodes(uri, front)
      case Failure(e) => Failure(e)
      case Success(done) =>
        if ToFloat(n).Failure? then Failure("NumberFormatException")
        else Success(done + [EpisodeFor(uri, n)])
  }

  /** The episodes one script adds: none unless it holds `anime_info`. */
  function ScriptEpisodes(data: string): Result<seq<Episode>>
  {
    if !Contains(data, SCRIPT_MARK) then Success([])
    else
      match AnimeUri(data)
      case Failure(e) => Failure(e)
      case Success(uri) => ArrayEpisodes(uri, EpisodeEntries(data))
  }

  /**
   * A script without the marker adds nothing; one with it fails exactly when
   * its `anime_info` array has fewer than three fields or an entry of its
   * episodes array has no float number, and otherwise adds one episode per
   * entry of its episodes array.
   */
  lemma ScriptEpisodesRules(data: string)
    ensures !Contains(data, SCRIPT_MARK) ==> ScriptEpisodes(data) == Success([])
    ensures Contains(data, SCRIPT_MARK) ==>
      (ScriptEpisodes(data).Failure? <==>
        |Split(SubstringBefore(SubstringAfter(data, INFO_OPEN), ARRAY_CLOSE), ",")| < 3
        || !AllNumbered(EpisodeEntries(data)))
    ensures ScriptEpisodes(data).Success? && Contains(data, SCRIPT_MARK) ==>
      |ScriptEpisodes(data).value| == |EpisodeEntries(data)|
  {
  }

  /** The page's scripts in document order; the first that throws ends the parse. */
  function AllEpisodes(scripts: seq<string>): Result<seq<Episode>>
  {
    if |scripts| == 0 then Success([])
    else
      match ScriptEpisodes(scripts[0])
      case Failure(e) => Failure(e)
      case Success(first) => Prepend(first, AllEpisodes(scripts[1..]))
  }

  /** The parse fails exactly when some script of the page throws. */
  lemma {:induction false} AllEpisodesFailure(scripts: seq<string>)
    ensures AllEpisodes(scripts).Failure? <==> exists k :: 0 <= k < |scripts| && ScriptEpisodes(scripts[k]).Failure?
  {
    if |scripts| > 0 {
      var rest := scripts[1..];
      AllEpisodesFailure(rest);
      var head := ScriptEpisodes(scripts[0]);
      if head.Success? {
        assert AllEpisodes(scripts) == Prepend(head.value, AllEpisodes(rest));
        if exists k :: 0 <= k < |scripts| && ScriptEpisodes(scripts[k]).Failure? {
          var k :| 0 <= k < |scripts| && ScriptEpisodes(scripts[k]).Failure?;
          assert scripts[k] == rest[k - 1];
        }
        if exists j :: 0 <= j < |rest| && ScriptEpisodes(rest[j]).Failure? {
          var j :| 0 <= j < |rest| && ScriptEpisodes(rest[j]).Failure?;
          assert scripts[j + 1] == rest[j];
        }
      }
    }
  }

  /** `episodeListParse`: every script is read, each anime script appending its episodes. */
  method EpisodeListParse(scripts: seq<string>) returns (r: Result<seq<Episode>>)
    ensures r == AllEpisodes(scripts)
  {
    var episodeList: seq<Episode> := [];
    assert scripts[0..] == scripts;
    PrependNothing(AllEpisodes(scripts));
    for i := 0 to |scripts|
      invariant AllEpisodes(scripts) == Prepend(episodeList, AllEpisodes(scripts[i..]))
    {
      assert scripts[i..][1..] == scripts[i + 1..];
      var added := ReadScript(scripts[i]);
      if added.Failure? {
        return added;
      }
      PrependTwice(episodeList, added.value, AllEpisodes(scripts[i + 1..]));
      episodeList := episodeList + added.value;
    }
    assert episodeList + [] == episodeList;
    r := Success(episodeList);
  }

  /** One script's pass: its episodes in entry order, or the failure of its `anime_info` or number read. */
  method ReadScript(data: string) returns (r: Result<seq<Episode>>)
    ensures r == ScriptEpisodes(data)
  {
    if !Contains(data, SCRIPT_MARK) {
      return Success([]);
    }
    var arrInfo := Split(SubstringBefore(SubstringAfter(data, INFO_OPEN), ARRAY_CLOSE), ",");
    if |arrInfo| < 3 {
      return Failure("IndexOutOfBoundsException");
    }
    var animeUri := Replace(arrInfo[2], "\"", "");
    assert AnimeUri(data) == Success(animeUri);
    r := ReadEntries(animeUri, EpisodeEntries(data));
  }

  /**
   * The loop over the episodes array: one episode per entry, in order; the
   * first entry whose number is not a float throws.
   */
  method ReadEntries(animeUri: string, arrEpisodes: seq<string>) returns (r: Result<seq<Episode>>)
    ensures r == ArrayEpisodes(animeUri, arrEpisodes)
  {
    var episodes := [];
    for j := 0 to |arrEpisodes|
      invariant ArrayEpisodes(animeUri, arrEpisodes[..j]) == Success(episodes)
    {
      assert arrEpisodes[..j + 1][..j] == arrEpisodes[..j];
      var noEpisode := EntryNumber(arrEpisodes[j]);
      var ep := EpisodeFor(animeUri, noEpisode);
      if ToFloat(noEpisode).Failure? {
        assert !AllNumbered(arrEpisodes[..j + 1]) by {
          assert arrEpisodes[..j + 1][j] == arrEpisodes[j];
        }
        assert !AllNumbered(arrEpisodes) by {
          assert arrEpisodes[..j + 1][j] == arrEpisodes[j];
        }
        return Failure("NumberFormatException");
      }
      episodes := episodes + [ep];
    }
    assert arrEpisodes[..|arrEpisodes|] == arrEpisodes;
    r := Success(episodes);
  }

  // ----- What the site writes, read back ------------------------------

  /** A field of the site's arrays: no brackets, commas or semicolons (numbers, ids). */
  predicate Plain(s: string)
  {
    '[' !in s && ']' !in s && ',' !in s && ';' !in s
  }

  /** `number,id`. */
  function Field(e: (string, string)): string
  {
    e.0 + "," + e.1
  }

  /** One episode entry `[number,id]` as the page writes it. */
  function Bracketed(e: (string, string)): string
  {
    "[" + Field(e) + "]"
  }

  /** A piece of the contents cut at `],[`: the entry, with its `[` when first and its `]` when last. */
  function Piece(e: (string, string), open: bool, close: bool): string
  {
    var core := if close then Field(e) + "]" else Field(e);
    if open then "[" + core else core
  }

  /** The episodes array's contents `[n1,id1],[n2,id2],…` (inside the outer brackets). */
  function Rendered(eps: seq<(string, string)>): string
  {
    Join(seq(|eps|, k requires 0 <= k < |eps| => Bracketed(eps[k])), ",")
  }

  /** The same text cut at each `],[`: the first piece keeps its `[`, the last its `]`. */
  function Pieces(eps: seq<(string, string)>): seq<string>
  {
    seq(|eps|, k requires 0 <= k < |eps| => Piece(eps[k], k == 0, k == |eps| - 1))
  }

  lemma {:induction false} RenderedPieces(eps: seq<(string, string)>)
    requires |eps| > 0
    ensures Rendered(eps) == Join(Pieces(eps), ENTRY_SEP)
  {
    if |eps| > 1 {
      var tail := eps[1..];
      RenderedPieces(tail);
      var b := seq(|eps|, k requires 0 <= k < |eps| => Bracketed(eps[k]));
      assert b[1..] == seq(|tail|, k requires 0 <= k < |tail| => Bracketed(tail[k]));
      var p := Pieces(eps);
      forall k | 0 <= k < |tail|
        ensures Pieces(tail)[k] == (["[" + p[1]] + p[2..])[k]
      {
        assert tail[k] == eps[k + 1];
      }
      assert Pieces(tail) == ["[" + p[1]] + p[2..];
      JoinHead("[", p[1..], ENTRY_SEP);
      assert p[1..][1..] == p[2..];
      var f0 := Field(eps[0]);
      var j := Join(p[1..], ENTRY_SEP);
      assert Rendered(eps) == ("[" + f0 + "]") + "," + ("[" + j);
      assert p[0] == "[" + f0;
      assert ("[" + f0 + "]") + "," + ("[" + j) == ("[" + f0) + ENTRY_SEP + j;
    }
  }

  /** Splitting the array's contents on `],[` gives the pieces. */
  lemma SplitRendered(eps: seq<(string, string)>)
    requires |eps| > 0
    requires forall k :: 0 <= k < |eps| ==> Plain(eps[k].0) && Plain(eps[k].1)
    ensures Split(Rendered(eps), ENTRY_SEP) == Pieces(eps)
  {
    RenderedPieces(eps);
    var p := Pieces(eps);
    var n := |eps|;
    forall k | 0 <= k < n - 1
      ensures FirstAtEnd(p[k], ENTRY_SEP)
    {
      FirstAtEndFirstChar(p[k], ENTRY_SEP);
    }
    var f := if n == 1 then "[" + Field(eps[n - 1]) else Field(eps[n - 1]);
    assert p[n - 1] == f + [ENTRY_SEP[0]];
    ClosingChar(f, ENTRY_SEP);
    SplitOfJoin(p, ENTRY_SEP);
  }

  /** Removing the brackets of a piece and taking its first field gives its number. */
  lemma PieceNumber(e: (string, string), open: bool, close: bool)
    requires Plain(e.0) && Plain(e.1)
    ensures EntryNumber(Piece(e, open, close)) == e.0
  {
    var f := Field(e);
    var core := if close then f + "]" else f;
    assert '[' !in core;
    if open {
      NoFirstCharNoOccurrence(core, "[");
      ReplaceLeading("[", core, "");
      assert "" + core == core;
    } else {
      RemoveMissingChar(core, '[');
    }
    if close {
      RemoveTrailingChar(f, ']');
    } else {
      RemoveMissingChar(f, ']');
    }
    FirstAtEndChar(e.0, ',');
    FirstOccurrence(e.0, ",", e.1);
    assert f[..|e.0|] == e.0;
  }

  /**
   * Reading back an episodes array the page wrote: it reads exactly when
   * every entry's number is a plain decimal, and then gives one episode per
   * entry, in order, numbered and named after the entry's number.
   */
  lemma ArrayRoundTrip(uri: string, eps: seq<(string, string)>)
    requires |eps| > 0
    requires forall k :: 0 <= k < |eps| ==> Plain(eps[k].0) && Plain(eps[k].1)
    ensures var r := ArrayEpisodes(uri, Split(Rendered(eps), ENTRY_SEP));
      (r.Success? <==> forall k :: 0 <= k < |eps| ==> PlainDecimal(eps[k].0))
      && (r.Success? ==>
            |r.value| == |eps|
            && (forall k :: 0 <= k < |eps| ==>
                  r.value[k].name == "Episodio " + eps[k].0 && r.value[k].number == Some(eps[k].0)
                  && r.value[k].url == BASE_URL + "/ver/" + uri + "-" + eps[k].0))
  {
    SplitRendered(eps);
    forall k | 0 <= k < |eps|
      ensures EntryNumber(Pieces(eps)[k]) == eps[k].0
    {
      PieceNumber(eps[k], k == 0, k == |eps| - 1);
    }
  }

  /**
   * An empty episodes array `var episodes = [];` is the single entry "",
   * whose number does not read as a float: the parse throws.
   */
  lemma EmptyArrayThrows(pre: string, post: string, uri: string)
    requires FirstAtEnd(pre, EPISODES_OPEN)
    ensures EpisodeEntries(pre + EPISODES_OPEN + ARRAY_CLOSE + post) == [""]
    ensures ArrayEpisodes(uri, [""]).Failure?
  {
    FirstAtEndSecondChar("", ARRAY_CLOSE);
    Between(pre, EPISODES_OPEN, "", ARRAY_CLOSE, post);
    assert pre + EPISODES_OPEN + "" + ARRAY_CLOSE + post == pre + EPISODES_OPEN + ARRAY_CLOSE + post;
    assert Trim("") == "";
    NoFirstCharNoOccurrence("", ENTRY_SEP);
    SplitMissing("", ENTRY_SEP);
    assert EntryNumber("") == "" by {
      RemoveMissingChar("", '[');
      RemoveMissingChar("", ']');
      SplitMissing("", ",");
    }
  }

  /** The episodes array is found after its opening text, cut at `];` and trimmed, giving its contents. */
  lemma EntriesOfScript(pre: string, eps: seq<(string, string)>, post: string)
    requires |eps| > 0
    requires forall k :: 0 <= k < |eps| ==> Plain(eps[k].0) && Plain(eps[k].1)
    requires FirstAtEnd(pre, EPISODES_OPEN)
    ensures EpisodeEntries(pre + EPISODES_OPEN + Rendered(eps) + ARRAY_CLOSE + post) == Pieces(eps)
  {
    var body := Rendered(eps);
    var b := seq(|eps|, k requires 0 <= k < |eps| => Bracketed(eps[k]));
    JoinLacks(b, ",", ';');
    FirstAtEndSecondChar(body, ARRAY_CLOSE);
    Between(pre, EPISODES_OPEN, body, ARRAY_CLOSE, post);
    RenderedPieces(eps);
    var p := Pieces(eps);
    assert |p[0]| > 0 && p[0][0] == '[';
    JoinHead("", p, ENTRY_SEP);
    assert body[0] == '[';
    assert p[|p| - 1][|p[|p| - 1]| - 1] == ']';
    JoinLast(p, ENTRY_SEP);
    TrimClean(body);
    SplitRendered(eps);
  }

  lemma {:induction false} JoinLast(parts: seq<string>, sep: string)
    requires |parts| > 0 && |parts[|parts| - 1]| > 0
    ensures var j := Join(parts, sep); |j| > 0 && j[|j| - 1] == parts[|parts| - 1][|parts[|parts| - 1]| - 1]
  {
    if |parts| > 1 {
      JoinLast(parts[1..], sep);
    }
  }

  /** The third field of `anime_info`, written in quotes, is read back without them. */
  lemma UriOfScript(pre: string, fields: seq<string>, uri: string, post: string)
    requires |fields| >= 3 && fields[2] == "\"" + uri + "\"" && '"' !in uri
    requires forall k :: 0 <= k < |fields| ==> ',' !in fields[k] && ';' !in fields[k]
    requires FirstAtEnd(pre, INFO_OPEN)
    ensures AnimeUri(pre + INFO_OPEN + Join(fields, ",") + ARRAY_CLOSE + post) == Success(uri)
  {
    var info := Join(fields, ",");
    JoinLacks(fields, ",", ';');
    FirstAtEndSecondChar(info, ARRAY_CLOSE);
    Between(pre, INFO_OPEN, info, ARRAY_CLOSE, post);
    CommaSplitJoin(fields);
    RemoveSurroundingChar(uri, '"');
  }

  lemma {:induction false} CommaSplitJoin(fields: seq<string>)
    requires |fields| > 0
    requires forall k :: 0 <= k < |fields| ==> ',' !in fields[k]
    ensures Split(Join(fields, ","), ",") == fields
  {
    forall k | 0 <= k < |fields| - 1
      ensures FirstAtEnd(fields[k], ",")
    {
      FirstAtEndChar(fields[k], ',');
    }
    NoFirstCharNoOccurrence(fields[|fields| - 1], ",");
    SplitOfJoin(fields, ",");
  }

  // ---------------------------------------------------------------------
  // Details and search
  // ---------------------------------------------------------------------

  /** `parseStatus`: "En emision" is checked before "Finalizado". */
  function ParseStatus(text: string): (r: Status)
    ensures r == Ongoing <==> Contains(text, "En emision")
    ensures r == Completed <==> !Contains(text, "En emision") && Contains(text, "Finalizado")
    ensures r == Unknown <==> !Contains(text, "En emision") && !Contains(text, "Finalizado")
  {
    if Contains(text, "En emision") then Ongoing
    else if Contains(text, "Finalizado") then Completed
    else Unknown
  }

  /** `externalOrInternalImg`: a URL with "https" is kept, any other is resolved against the site. */
  function ExternalOrInternalImg(url: string): (r: string)
    ensures Contains(url, "https") ==> r == url
    ensures !Contains(url, "https") ==> r == BASE_URL + "/" + url
  {
    if Contains(url, "https") then url else BASE_URL + "/" + url
  }

  /** A resolved image URL is kept as it is: resolving twice is resolving once. */
  lemma ImgIdempotent(url: string)
    ensures Contains(ExternalOrInternalImg(url), "https")
    ensures ExternalOrInternalImg(ExternalOrInternalImg(url)) == ExternalOrInternalImg(url)
  {
    var r := ExternalOrInternalImg(url);
    if !Contains(url, "https") {
      assert r[..5] == "https";
      assert OccursAt(r, "https", 0);
      OccursAtContains(r, "https", 0);
    }
  }

  /** A filter of the sheet: the genre select, or the header text. */
  datatype Filter = GenreFilter(state: nat) | Header

  /** The `toUriPart()` value of each genre, by state. */
  const GENRE_PARTS: seq<string> := [
    "all", "accion", "artes_marciales", "aventura", "carreras", "ciencia_ficcion", "comedia",
    "demencia", "demonios", "deportes", "drama", "ecchi", "escolares", "espacial", "fantasia",
    "harem", "historico", "infantil", "josei", "juegos", "magia", "mecha", "militar", "misterio",
    "musica", "parodia", "policia", "psicologico", "recuentos_de_la_vida", "romance", "samurai",
    "seinen", "shoujo", "shounen", "sobrenatural", "superpoderes", "suspenso", "terror",
    "vampiros", "yaoi", "yuri"
  ]

  /** The state of the first genre select of the sheet (`getFilterList()` when the list is empty). */
  function FindGenre(filters: seq<Filter>): (r: Option<nat>)
    ensures r.Some? <==> exists k :: 0 <= k < |filters| && filters[k].GenreFilter?
    ensures r.Some? && filters[0].GenreFilter? ==> r.value == filters[0].state
    ensures r.Some? ==> exists k :: (0 <= k < |filters| && filters[k].GenreFilter? && r.value == filters[k].state
      && forall j :: 0 <= j < k ==> !filters[j].GenreFilter?)
  {
    if |filters| == 0 then None
    else if filters[0].GenreFilter? then Some(filters[0].state)
    else
      var r := FindGenre(filters[1..]);
      assert forall k :: 1 <= k < |filters| ==> filters[k] == filters[1..][k - 1];
      r
  }

  function Sheet(filters: seq<Filter>): seq<Filter>
  {
    if |filters| == 0 then [Header, GenreFilter(0)] else filters
  }

  /**
   * `searchAnimeRequest`: the cast of a missing genre select throws before
   * anything else; then a non-blank query wins; then a genre other than the
   * first; else the plain browse page. A state past the table throws.
   */
  function SearchUrl(page: int, query: string, filters: seq<Filter>): (r: Result<string>)
    ensures FindGenre(Sheet(filters)).None? ==> r.Failure?
    ensures FindGenre(Sheet(filters)).Some? && !IsBlank(query) ==>
      r == Success(BASE_URL + "/browse?q=" + query + "&order=rating&page=" + IntToString(page))
    ensures FindGenre(Sheet(filters)) == Some(0) && IsBlank(query) ==>
      r == Success(BASE_URL + "/browse?page=" + IntToString(page) + "&order=rating")
    ensures FindGenre(Sheet(filters)).Some? && IsBlank(query) && FindGenre(Sheet(filters)).value > 0 ==>
      var g := FindGenre(Sheet(filters)).value;
      (r.Failure? <==> g >= |GENRE_PARTS|)
      && (r.Success? ==> r.value == BASE_URL + "/browse?genre[]=" + GENRE_PARTS[g] + "&order=rating&page=" + IntToString(page))
  {
    match FindGenre(Sheet(filters))
    case None => Failure("NullPointerException")
    case Some(g) =>
      if !IsBlank(query) then Success(BASE_URL + "/browse?q=" + query + "&order=rating&page=" + IntToString(page))
      else if g != 0 then
        if g < |GENRE_PARTS| then Success(BASE_URL + "/browse?genre[]=" + GENRE_PARTS[g] + "&order=rating&page=" + IntToString(page))
        else Failure("IndexOutOfBoundsException")
      else Success(BASE_URL + "/browse?page=" + IntToString(page) + "&order=rating")
  }

  /** The sheet the app builds by default browses all genres when the query is blank. */
  lemma DefaultSearch(page: int, query: string)
    requires IsBlank(query)
    ensures SearchUrl(page, query, []) == Success(BASE_URL + "/browse?page=" + IntToString(page) + "&order=rating")
  {
    assert Sheet([])[1].GenreFilter?;
  }

  /**
   * The sheet the app builds, with any genre state and a blank query: the
   * first genre browses all, another lists that genre, and a state past the
   * table throws.
   */
  lemma AppSheet(page: int, query: string, g: nat)
    requires IsBlank(query)
    ensures var r := SearchUrl(page, query, [Header, GenreFilter(g)]);
      (g == 0 ==> r == Success(BASE_URL + "/browse?page=" + IntToString(page) + "&order=rating"))
      && (0 < g < |GENRE_PARTS| ==> r == Success(BASE_URL + "/browse?genre[]=" + GENRE_PARTS[g] + "&order=rating&page=" + IntToString(page)))
      && (g >= |GENRE_PARTS| ==> r.Failure?)
  {
    var fs := [Header, GenreFilter(g)];
    assert fs[1].GenreFilter? && !fs[0].GenreFilter?;
    assert FindGenre(fs) == Some(g);
  }

  /** With a genre select on the sheet, the text query decides alone: the genre is not read. */
  lemma QueryIgnoresGenre(page: int, query: string, g1: nat, g2: nat)
    requires !IsBlank(query)
    ensures SearchUrl(page, query, [Header, GenreFilter(g1)]) == SearchUrl(page, query, [Header, GenreFilter(g2)])
    ensures SearchUrl(page, query, [Header, GenreFilter(g1)]).Success?
  {
    assert [Header, GenreFilter(g1)][1].GenreFilter?;
    assert [Header, GenreFilter(g2)][1].GenreFilter?;
  }
}
