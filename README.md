# Aniyomi extension scrapers, modelled in Dafny

This project models the logic inside fifteen Kotlin source files of the
aniyomi-extensions repository: thirteen plugins, one plugin's video
extractor and a shared extractor library. Aniyomi is an Android reader for anime and
manga. Each plugin ("extension") turns one website's pages into the app's
entities: anime or manga entries, episode and chapter lists, pages, and
playable videos. It also builds the site's search and listing URLs from the
text query and the filter sheet.

The plugins covered are Mintmanga, MangaRawClub, Shahid4U (with its UQLoad
extractor), Tuktuk, AnimeFlv, Cimalek, EgyDead, AsianLoad, AskTv, XsAnime,
A4U, ArabLionz and AnimeBlkom, plus the shared VidBom extractor library.
The HTTP calls and the HTML parsing stay outside the model. What the model
keeps is the string, list and URL logic in between:

- how episode and chapter names and numbers are derived from the page text;
- which server goes to which extractor, and how a failing server is dropped;
- how the video list is ordered by the preferred quality;
- how request URLs are built from the query, the filters and the page number;
- how player scripts and playlists are cut into video entries.

Layout:

- `wrappers.dfy`: `Option` and `Result`.
- `kotlin_text.dfy`: the Kotlin standard-library string operations the
  plugins use (`indexOf`, `substringBefore`/`After` and their `Last` forms,
  `split`, `joinToString`, `replace`, `trim`, `removePrefix`/`Suffix`,
  digit filtering, `toIntOrNull`, `toFloat` on plain decimals, the 32-bit
  `Int`) with their algebraic laws.
- `media.dfy`: the app's entities (`Video`, `Episode`, `Chapter`, `Page`,
  `Status`) and the "catching flat-map" used to gather videos from servers.
- `prioritise.dfy`: the two orderings of a video list by preferred quality.
  One is the in-place insertion loop (`add(preferred, video)`). The other is
  the stable sort followed by `reversed()`. A lemma shows that they differ.
- `http_url.dfy`: the part of OkHttp's `HttpUrl.Builder` the plugins call,
  as a class with path segments and query parameters. It includes
  percent-encoding and rendering.
- `category_select.dfy`: the "first category select set above 0" rule that
  several search requests share.
- One module per plugin file, named after it. `uqload.dfy` and `vidbom.dfy`
  hold the two extractors.

The network is modelled by its results. A fetched page, a script or a
playlist body, or an extractor's output is a parameter. `None` or a
`Failure` stands for a thrown exception. A regular-expression match that the
source performs is also an input: whether it matched, and its group. Where
the source updates a mutable list in a loop (`episodes.add`,
`videoList.add`), the model has a `method` with that loop. The method is
proved equal to a recursive specification function, and the properties are
lemmas about that function. A4U's `buildString` description only
accumulates locally, and is modelled by the recursive function alone
(`A4U.Description`).

## Model

| member | source | states |
|---|---|---|
| KotlinText.IndexOfFrom | src/ru/mintmanga/src/eu/kanade/tachiyomi/extension/ru/mintmanga/Mintmanga.kt:284-286 | `indexOf(d, from)` is -1 or the first occurrence at or after `from`; no earlier occurrence exists in that range |
| KotlinText.BeforeAfter | src/ar/xsanime/src/eu/kanade/tachiyomi/animeextension/ar/xsanime/XsAnime.kt:123-124 | with the delimiter present the text is the part before it, the delimiter and the part after it, and the part before does not contain it |
| KotlinText.Between | src/ar/xsanime/src/eu/kanade/tachiyomi/animeextension/ar/xsanime/XsAnime.kt:123-124 | `substringAfter(open).substringBefore(close)` reads back the value written between the first `open` and the next `close` |
| KotlinText.MissingDelimiter | src/ar/xsanime/src/eu/kanade/tachiyomi/animeextension/ar/xsanime/XsAnime.kt:123-124 | a missing delimiter makes both `substringBefore` and `substringAfter` return the whole receiver |
| KotlinText.JoinSplit | src/es/animeflv/src/eu/kanade/tachiyomi/animeextension/es/animeflv/AnimeFlv.kt:84-85 | splitting and joining again with the same delimiter gives back the text |
| KotlinText.SplitPiecesFree | src/es/animeflv/src/eu/kanade/tachiyomi/animeextension/es/animeflv/AnimeFlv.kt:84-85 | no piece of `split(d)` contains `d` |
| KotlinText.SplitOfJoin | src/es/animeflv/src/eu/kanade/tachiyomi/animeextension/es/animeflv/AnimeFlv.kt:84-85 | joining parts with `d` and splitting on `d` gives the parts back under the stated first-occurrence conditions |
| KotlinText.ReplaceIsJoinSplit | src/ar/animeblkom/src/eu/kanade/tachiyomi/animeextension/ar/animeblkom/AnimeBlkom.kt:93 | `replace(from, to)` is splitting on `from` and joining with `to` |
| KotlinText.ReplaceFirst | src/ar/animeblkom/src/eu/kanade/tachiyomi/animeextension/ar/animeblkom/AnimeBlkom.kt:93 | the first occurrence is rewritten and the rest of the text is rewritten in turn |
| KotlinText.ReplaceAbsent | src/ar/animeblkom/src/eu/kanade/tachiyomi/animeextension/ar/animeblkom/AnimeBlkom.kt:93 | a text without the old text is left unchanged |
| KotlinText.ReplaceKeepsOut | src/ar/animeblkom/src/eu/kanade/tachiyomi/animeextension/ar/animeblkom/AnimeBlkom.kt:93 | a character in neither the receiver nor the replacement never appears in the result |
| KotlinText.RemoveCharGone | src/es/animeflv/src/eu/kanade/tachiyomi/animeextension/es/animeflv/AnimeFlv.kt:86 | `replace(c, "")` removes every occurrence of `c` |
| KotlinText.RemovePrefix | src/ar/animeblkom/src/eu/kanade/tachiyomi/animeextension/ar/animeblkom/AnimeBlkom.kt:57 | `removePrefix(p)` strips `p` exactly when the text starts with it and otherwise returns the text |
| KotlinText.TrimProperties | src/es/animeflv/src/eu/kanade/tachiyomi/animeextension/es/animeflv/AnimeFlv.kt:87 | `trim()` leaves neither leading nor trailing whitespace and is a slice of the receiver |
| KotlinText.TrimIdempotent | src/es/animeflv/src/eu/kanade/tachiyomi/animeextension/es/animeflv/AnimeFlv.kt:87 | trimming twice is trimming once |
| KotlinText.TrimPadded | src/es/animeflv/src/eu/kanade/tachiyomi/animeextension/es/animeflv/AnimeFlv.kt:87 | a text padded with blanks on both sides trims to itself |
| KotlinText.BlankIffTrimEmpty | src/ar/xsanime/src/eu/kanade/tachiyomi/animeextension/ar/xsanime/XsAnime.kt:103 | `isBlank()` holds exactly when trimming leaves nothing |
| KotlinText.WrapInt | src/ru/mintmanga/src/eu/kanade/tachiyomi/extension/ru/mintmanga/Mintmanga.kt:67-71 | a 32-bit `Int` result lies in the `Int` range, is congruent to the exact value modulo 2^32 and equals it when it fits |
| KotlinText.ToIntOrNull | src/ar/xsanime/src/eu/kanade/tachiyomi/animeextension/ar/xsanime/XsAnime.kt:128 | `toIntOrNull()` of an unsigned text is null exactly for the empty text, a non-digit or a value above `Int.MAX_VALUE`, and is the decimal value otherwise |
| KotlinText.IntTextRoundTrip | src/ar/xsanime/src/eu/kanade/tachiyomi/animeextension/ar/xsanime/XsAnime.kt:128 | the decimal text of every non-negative `Int` reads back through `toIntOrNull()` to the same number |
| KotlinText.IntToStringInjective | src/ar/shahid4u/src/eu/kanade/tachiyomi/animeextension/ar/shahid4u/Shahid4U.kt:307 | different `Int` values have different decimal texts |
| KotlinText.DigitsNumber | src/ar/xsanime/src/eu/kanade/tachiyomi/animeextension/ar/xsanime/XsAnime.kt:71 | `filter { isDigit() }` keeps every decimal digit of the Basic Multilingual Plane; `toFloat()` then reads exactly when some digit is kept and all kept digits are ASCII, giving those digits |
| KotlinText.ForeignDigitThrows | src/ar/xsanime/src/eu/kanade/tachiyomi/animeextension/ar/xsanime/XsAnime.kt:71 | a digit of another script (Arabic-Indic, Devanagari, fullwidth, ...) anywhere in the text passes the filter and makes the number read throw |
| KotlinText.FilterDigitsIdempotent | src/ar/xsanime/src/eu/kanade/tachiyomi/animeextension/ar/xsanime/XsAnime.kt:71 | filtering digits twice is filtering once |
| KotlinText.FilterDigitsAppend | src/ar/xsanime/src/eu/kanade/tachiyomi/animeextension/ar/xsanime/XsAnime.kt:71 | the digit filter works piece by piece over a concatenation |
| KotlinText.NumberAfterText | src/ar/xsanime/src/eu/kanade/tachiyomi/animeextension/ar/xsanime/XsAnime.kt:71 | a digit-free text followed by a number's decimal text filters down to that decimal text |
| KotlinText.FirstOccurrence | src/ar/xsanime/src/eu/kanade/tachiyomi/animeextension/ar/xsanime/XsAnime.kt:123-124 | when the delimiter first occurs right after `a`, `substringBefore` gives `a` and `substringAfter` gives what follows |
| KotlinText.LastOccurrence | src/ar/a4u/src/eu/kanade/tachiyomi/animeextension/ar/a4u/A4U.kt:207 | a character occurring last right after `a` splits the text there for `substringBeforeLast` and `substringAfterLast` |
| KotlinText.SignOfText | src/ar/shahid4u/src/eu/kanade/tachiyomi/animeextension/ar/shahid4u/Shahid4U.kt:307 | the text of an `Int` starts with a minus sign exactly for negative values |
| KotlinText.Capitalize | src/ar/shahid4u/src/eu/kanade/tachiyomi/animeextension/ar/shahid4u/extractors/UQLoadExtractor.kt:13 | `replaceFirstChar(Char::uppercase)` upper-cases the first character and keeps the rest and the length |
| MangaRawClub.FilterParamsSnoc | src/en/mangarawclub/src/eu/kanade/tachiyomi/extension/en/mangarawclub/MangaRawClub.kt:169-181 | one more filter adds its parameter after the others', or its failure ends the walk |
| MangaRawClub.Author | src/en/mangarawclub/src/eu/kanade/tachiyomi/extension/en/mangarawclub/MangaRawClub.kt:68-69 | the author is absent exactly for the "Updating" placeholder and is the title attribute otherwise |
| MangaRawClub.StatusOf | src/en/mangarawclub/src/eu/kanade/tachiyomi/extension/en/mangarawclub/MangaRawClub.kt:86-91 | a completed marker gives COMPLETED, else an ongoing marker ONGOING, else UNKNOWN |
| MangaRawClub.Cover | src/en/mangarawclub/src/eu/kanade/tachiyomi/extension/en/mangarawclub/MangaRawClub.kt:93-97 | the cover is `data-src` when it is non-empty, otherwise `src` |
| MangaRawClub.MangaDetailsParse | src/en/mangarawclub/src/eu/kanade/tachiyomi/extension/en/mangarawclub/MangaRawClub.kt:66-99 | the step-by-step description and the genre loop build exactly the modelled details |
| MangaRawClub.CollectGenres | src/en/mangarawclub/src/eu/kanade/tachiyomi/extension/en/mangarawclub/MangaRawClub.kt:79-83 | the loop over the genre links builds one genre name per link, in order |
| MangaRawClub.SummaryOnly | src/en/mangarawclub/src/eu/kanade/tachiyomi/extension/en/mangarawclub/MangaRawClub.kt:71-77 | with the placeholder alternative title the description is the trimmed summary alone |
| MangaRawClub.SummaryThenAlternative | src/en/mangarawclub/src/eu/kanade/tachiyomi/extension/en/mangarawclub/MangaRawClub.kt:71-77 | a known alternative title follows the summary after a blank line; with no summary the description starts at the alternative-name label |
| MangaRawClub.GenresReadBack | src/en/mangarawclub/src/eu/kanade/tachiyomi/extension/en/mangarawclub/MangaRawClub.kt:79-84 | the genre field splits back on ", " into the genre names, in link order |
| MangaRawClub.GenreSuffixDropped | src/en/mangarawclub/src/eu/kanade/tachiyomi/extension/en/mangarawclub/MangaRawClub.kt:81 | a genre link titled "<name>Genre" with a clean name is the genre `name` |
| MangaRawClub.ChapterNameOfTitle | src/en/mangarawclub/src/eu/kanade/tachiyomi/extension/en/mangarawclub/MangaRawClub.kt:112-113 | a slug title loses its "-eng-li" tail and any other title is kept whole, after "Chapter " |
| MangaRawClub.NormaliseDate | src/en/mangarawclub/src/eu/kanade/tachiyomi/extension/en/mangarawclub/MangaRawClub.kt:120-124 | an empty date gives no date; any other is normalised |
| MangaRawClub.NormalisedHasNoDots | src/en/mangarawclub/src/eu/kanade/tachiyomi/extension/en/mangarawclub/MangaRawClub.kt:124 | the text handed to the date parser has no "." left |
| MangaRawClub.SeptemberAbbreviation | src/en/mangarawclub/src/eu/kanade/tachiyomi/extension/en/mangarawclub/MangaRawClub.kt:124 | "Sept. <rest>" reaches the date parser as "Sep <rest>" |
| MangaRawClub.PageListParse | src/en/mangarawclub/src/eu/kanade/tachiyomi/extension/en/mangarawclub/MangaRawClub.kt:137-143 | one page per image, numbered from 0 in document order, with its `src` |
| MangaRawClub.SearchMangaRequest | src/en/mangarawclub/src/eu/kanade/tachiyomi/extension/en/mangarawclub/MangaRawClub.kt:160-184 | the builder with one parameter per GET filter gives exactly the modelled search URL |
| MangaRawClub.TextSearchIgnoresFilters | src/en/mangarawclub/src/eu/kanade/tachiyomi/extension/en/mangarawclub/MangaRawClub.kt:161-162 | a text search is "/search/?search=<query>" whatever the filters say |
| MangaRawClub.DefaultSheetParams | src/en/mangarawclub/src/eu/kanade/tachiyomi/extension/en/mangarawclub/MangaRawClub.kt:165-182 | the untouched sheet asks for the "Random" order and every genre, after the page |
| XsAnime.FilterParamsSnoc | src/ar/xsanime/src/eu/kanade/tachiyomi/animeextension/ar/xsanime/XsAnime.kt:107-115 | one more filter adds its parameter after the others', or its failure ends the walk |
| XsAnime.EpisodeFromElement | src/ar/xsanime/src/eu/kanade/tachiyomi/animeextension/ar/xsanime/XsAnime.kt:68-72 | the episode keeps the link and title; its number is the title's digits, or 1 when they do not read as a number |
| XsAnime.EpisodeList | src/ar/xsanime/src/eu/kanade/tachiyomi/animeextension/ar/xsanime/XsAnime.kt:55-66 | a "/movie/" URL is one "مشاهدة" episode at itself; any other is one episode per link, in order |
| XsAnime.FilmPage | src/ar/xsanime/src/eu/kanade/tachiyomi/animeextension/ar/xsanime/XsAnime.kt:58-63 | any address with "/movie/" is a film, whatever links the page has |
| XsAnime.NumberedTitle | src/ar/xsanime/src/eu/kanade/tachiyomi/animeextension/ar/xsanime/XsAnime.kt:71 | a title of digit-free words and a number is that episode number |
| XsAnime.UnnumberedTitle | src/ar/xsanime/src/eu/kanade/tachiyomi/animeextension/ar/xsanime/XsAnime.kt:71 | a title without digits is episode 1 |
| XsAnime.AdvertisedCount | src/ar/xsanime/src/eu/kanade/tachiyomi/animeextension/ar/xsanime/XsAnime.kt:128-135 | an advertised count equal to the links plus one is COMPLETED, a larger one ONGOING, a smaller one UNKNOWN |
| XsAnime.NoAdvertisedCount | src/ar/xsanime/src/eu/kanade/tachiyomi/animeextension/ar/xsanime/XsAnime.kt:128-135 | a count line without any digit leaves the series COMPLETED |
| XsAnime.IframeOfShareLink | src/ar/xsanime/src/eu/kanade/tachiyomi/animeextension/ar/xsanime/XsAnime.kt:78 | a share link "<a>video<id>/<file>" opens the embed page "<a>web/embed/file<id>" |
| XsAnime.VideoList | src/ar/xsanime/src/eu/kanade/tachiyomi/animeextension/ar/xsanime/XsAnime.kt:83-91 | one video per `source` of the iframe page, in document order, with its `src` and the default label |
| XsAnime.LatestUrlOfEpisode | src/ar/xsanime/src/eu/kanade/tachiyomi/animeextension/ar/xsanime/XsAnime.kt:191-197 | an episode address "<a>episode<slug>-<n>-<tail>" leads to the series "<a>anime<slug>" |
| XsAnime.LatestUrlWithoutDash | src/ar/xsanime/src/eu/kanade/tachiyomi/animeextension/ar/xsanime/XsAnime.kt:191-197 | an address with fewer than two dashes leaves nothing |
| XsAnime.Shown | src/ar/xsanime/src/eu/kanade/tachiyomi/animeextension/ar/xsanime/XsAnime.kt:183-186 | the select shows the second component of each pair |
| XsAnime.UriPart | src/ar/xsanime/src/eu/kanade/tachiyomi/animeextension/ar/xsanime/XsAnime.kt:183-186 | `toUriPart()` sends the first component of the chosen pair, and throws exactly for a state past the end |
| XsAnime.SentAsShown | src/ar/xsanime/src/eu/kanade/tachiyomi/animeextension/ar/xsanime/XsAnime.kt:110-111 | every genre and status but the placeholder is sent under the name it is shown with; the placeholder sends "" |
| XsAnime.SearchUrl | src/ar/xsanime/src/eu/kanade/tachiyomi/animeextension/ar/xsanime/XsAnime.kt:102-118 | a non-blank query searches by text; otherwise the listing with the filters' parameters, failing exactly when a filter throws |
| XsAnime.OutOfRangeThrows | src/ar/xsanime/src/eu/kanade/tachiyomi/animeextension/ar/xsanime/XsAnime.kt:106-116 | a genre or status past its table makes the whole request throw |
| XsAnime.DefaultSheetUrl | src/ar/xsanime/src/eu/kanade/tachiyomi/animeextension/ar/xsanime/XsAnime.kt:106-116 | the untouched sheet sends both the genre and status parameters, empty |
| XsAnime.NoParameters | src/ar/xsanime/src/eu/kanade/tachiyomi/animeextension/ar/xsanime/XsAnime.kt:106 | with nothing added the listing address ends at the bare "?" |
| Media.FlattenFromSuccesses | src/ar/tuktuk/src/eu/kanade/tachiyomi/animeextension/ar/tuktuk/Tuktuk.kt:145-149 | every video of a catching flatMap comes from an element that succeeded and returned it |
| Media.FlattenAppend | src/ar/tuktuk/src/eu/kanade/tachiyomi/animeextension/ar/tuktuk/Tuktuk.kt:145-149 | the catching flatMap of two runs of elements is the concatenation of each run's, so document order is kept |
| Media.FlattenSilent | src/ar/tuktuk/src/eu/kanade/tachiyomi/animeextension/ar/tuktuk/Tuktuk.kt:145-149 | an element that throws or yields nothing leaves the flattened list of the others unchanged |
| Prioritise.Keep | src/ar/animeblkom/src/eu/kanade/tachiyomi/animeextension/ar/animeblkom/AnimeBlkom.kt:96-112 | the kept group holds only videos with the wanted key and is no longer than the list |
| Prioritise.KeepPermutation | src/ar/animeblkom/src/eu/kanade/tachiyomi/animeextension/ar/animeblkom/AnimeBlkom.kt:96-112 | the preferred and the other group together hold exactly the original videos |
| Prioritise.InsertPreferred | src/ar/animeblkom/src/eu/kanade/tachiyomi/animeextension/ar/animeblkom/AnimeBlkom.kt:96-112 | the `add(preferred, video)` / `add(video)` loop builds exactly the stable partition "preferred first" |
| Prioritise.PreferredFirstPermutation | src/ar/animeblkom/src/eu/kanade/tachiyomi/animeextension/ar/animeblkom/AnimeBlkom.kt:96-112 | the insertion loop only reorders: the result is a permutation of the input |
| Prioritise.PreferredFirstOrder | src/ar/animeblkom/src/eu/kanade/tachiyomi/animeextension/ar/animeblkom/AnimeBlkom.kt:96-112 | after the insertion loop every preferred video comes before every other |
| Prioritise.PreferredFirstStable | src/ar/animeblkom/src/eu/kanade/tachiyomi/animeextension/ar/animeblkom/AnimeBlkom.kt:96-112 | inside each group the insertion loop keeps the input order |
| Prioritise.Reverse | src/ar/tuktuk/src/eu/kanade/tachiyomi/animeextension/ar/tuktuk/Tuktuk.kt:209-214 | `reversed()` has the same length and puts element `k` at position `n-1-k` |
| Prioritise.ReverseTwice | src/ar/tuktuk/src/eu/kanade/tachiyomi/animeextension/ar/tuktuk/Tuktuk.kt:209-214 | reversing twice gives the list back |
| Prioritise.ReverseMultiset | src/ar/tuktuk/src/eu/kanade/tachiyomi/animeextension/ar/tuktuk/Tuktuk.kt:209-214 | reversing only reorders |
| Prioritise.KeepReverse | src/ar/tuktuk/src/eu/kanade/tachiyomi/animeextension/ar/tuktuk/Tuktuk.kt:209-214 | selecting a group of a reversed list is reversing the group |
| Prioritise.SortIsPartition | src/ar/tuktuk/src/eu/kanade/tachiyomi/animeextension/ar/tuktuk/Tuktuk.kt:209-214 | the stable `sortedWith(compareBy { contains })` is the non-matching videos then the matching ones, each in input order |
| Prioritise.SortIsSorted | src/ar/tuktuk/src/eu/kanade/tachiyomi/animeextension/ar/tuktuk/Tuktuk.kt:209-214 | after the stable sort no matching video precedes a non-matching one |
| Prioritise.SortPermutation | src/ar/tuktuk/src/eu/kanade/tachiyomi/animeextension/ar/tuktuk/Tuktuk.kt:209-214 | the stable sort only reorders |
| Prioritise.SortedThenReversedShape | src/ar/tuktuk/src/eu/kanade/tachiyomi/animeextension/ar/tuktuk/Tuktuk.kt:209-214 | sort-then-reverse is the matching videos reversed, then the non-matching ones reversed |
| Prioritise.SortedThenReversedPermutation | src/ar/tuktuk/src/eu/kanade/tachiyomi/animeextension/ar/tuktuk/Tuktuk.kt:209-214 | sort-then-reverse only reorders |
| Prioritise.SortedThenReversedOrder | src/ar/tuktuk/src/eu/kanade/tachiyomi/animeextension/ar/tuktuk/Tuktuk.kt:209-214 | after sort-then-reverse every matching video comes before every other |
| Prioritise.SortedThenReversedGroups | src/ar/tuktuk/src/eu/kanade/tachiyomi/animeextension/ar/tuktuk/Tuktuk.kt:209-214 | after sort-then-reverse each group is in the reverse of its input order |
| Prioritise.SchemesDiffer | src/ar/animeblkom/src/eu/kanade/tachiyomi/animeextension/ar/animeblkom/AnimeBlkom.kt:96-112 | the insertion loop and sort-then-reverse disagree on two matching labels: the first keeps their order, the second swaps it |
| HttpUrl.Utf8 | src/ru/mintmanga/src/eu/kanade/tachiyomi/extension/ru/mintmanga/Mintmanga.kt:100 | a character encodes to one to four bytes, and to itself exactly when it is ASCII |
| HttpUrl.EncodeChar | src/ru/mintmanga/src/eu/kanade/tachiyomi/extension/ru/mintmanga/Mintmanga.kt:100 | a character that needs no escaping is kept; any other becomes only `%XY` escape characters |
| HttpUrl.EncodePlain | src/ar/cimalek/src/eu/kanade/tachiyomi/animeextension/ar/cimalek/Cimalek.kt:172-176 | a component with no character to escape is encoded as itself |
| HttpUrl.PushSegment | src/ar/cimalek/src/eu/kanade/tachiyomi/animeextension/ar/cimalek/Cimalek.kt:170-181 | adding a path segment to a path ending in an empty segment replaces that segment; otherwise the segment is appended |
| HttpUrl.UrlBuilder.constructor | src/ar/cimalek/src/eu/kanade/tachiyomi/animeextension/ar/cimalek/Cimalek.kt:170 | `newBuilder()` starts from the parsed origin and path with no query |
| HttpUrl.UrlBuilder.AddPathSegment | src/ar/cimalek/src/eu/kanade/tachiyomi/animeextension/ar/cimalek/Cimalek.kt:172-181 | `addPathSegment` pushes the encoded segment and leaves the query unchanged |
| HttpUrl.UrlBuilder.AddQueryParameter | src/ru/mintmanga/src/eu/kanade/tachiyomi/extension/ru/mintmanga/Mintmanga.kt:100-120 | `addQueryParameter` appends the name/value pair at the end of the query and leaves the path unchanged |
| HttpUrl.SplitJoin | src/ru/mintmanga/src/eu/kanade/tachiyomi/extension/ru/mintmanga/Mintmanga.kt:135 | splitting a join on a one-character separator that no part contains gives the parts back |
| HttpUrl.EncodedComponentIsInert | src/ru/mintmanga/src/eu/kanade/tachiyomi/extension/ru/mintmanga/Mintmanga.kt:100 | an encoded query component holds no `&`, `=`, `#`, space or `+`, so it cannot break the query apart |
| HttpUrl.NoAmpersand | src/ru/mintmanga/src/eu/kanade/tachiyomi/extension/ru/mintmanga/Mintmanga.kt:100 | an encoded query component contains no `&` |
| HttpUrl.QueryReadBack | src/ru/mintmanga/src/eu/kanade/tachiyomi/extension/ru/mintmanga/Mintmanga.kt:100-135 | whatever names and values were added, splitting the rendered query on `&` gives one `name=value` piece per parameter, in order |
| CategorySelect.FirstSelected | src/ar/shahid4u/src/eu/kanade/tachiyomi/animeextension/ar/shahid4u/Shahid4U.kt:259-278 | the first category select set above 0 at or after `i`, and no select before it is set |
| CategorySelect.ChosenCategory | src/ar/tuktuk/src/eu/kanade/tachiyomi/animeextension/ar/tuktuk/Tuktuk.kt:226-246 | a chosen category always has a state above 0 |
| CategorySelect.FirstSelectedWins | src/ar/egydead/src/eu/kanade/tachiyomi/animeextension/ar/egydead/EgyDead.kt:162-183 | the first selected category decides; categories after it are not read |
| CategorySelect.NothingSelected | src/en/asianload/src/eu/kanade/tachiyomi/animeextension/en/asianload/AsianLoad.kt:204-222 | with no category set above 0, or no filters, no category is chosen |
| UQLoad.VideosFromScript | src/ar/shahid4u/src/eu/kanade/tachiyomi/animeextension/ar/shahid4u/extractors/UQLoadExtractor.kt:9-18 | a missing script throws; otherwise one video exactly when the script mentions "sources", playing the URL after `sources: ["` and labelled "<Host> Mirror" |
| UQLoad.WellFormedScript | src/ar/shahid4u/src/eu/kanade/tachiyomi/animeextension/ar/shahid4u/extractors/UQLoadExtractor.kt:9-18 | a script `sources: ["<url>"...` yields exactly that URL as one "<Host> Mirror" video |
| VidBom.SourceEntries | lib/vidbom-extractor/src/main/java/eu/kanade/tachiyomi/lib/vidbomextractor/VidBomExtractor.kt:14-16 | the entries are the pieces of the sources block after the first `file:"` marker, one per marker |
| VidBom.Quality | lib/vidbom-extractor/src/main/java/eu/kanade/tachiyomi/lib/vidbomextractor/VidBomExtractor.kt:18-22 | a URL with "go" gives "Vidbom: <label>", else one with "sha" gives "Vidshare: SD", else "Govad: <label>" |
| VidBom.VideosFromScript | lib/vidbom-extractor/src/main/java/eu/kanade/tachiyomi/lib/vidbomextractor/VidBomExtractor.kt:10-25 | a missing script throws; otherwise one video per entry, in order, playing the text before the entry's first quote |
| VidBom.EntriesRebuildBlock | lib/vidbom-extractor/src/main/java/eu/kanade/tachiyomi/lib/vidbomextractor/VidBomExtractor.kt:14-16 | the entries, put back behind the leading piece with `file:"` between them, rebuild the block, and none contains the marker |
| VidBom.NoMarkerNoVideos | lib/vidbom-extractor/src/main/java/eu/kanade/tachiyomi/lib/vidbomextractor/VidBomExtractor.kt:16 | a block with no `file:"` marker yields no video |
| VidBom.WellFormedEntry | lib/vidbom-extractor/src/main/java/eu/kanade/tachiyomi/lib/vidbomextractor/VidBomExtractor.kt:17-21 | a well-formed entry yields its file as stream URL and its `label:"` text as label |
| VidBom.QualityFamily | lib/vidbom-extractor/src/main/java/eu/kanade/tachiyomi/lib/vidbomextractor/VidBomExtractor.kt:18-22 | the label starts with "Vidbom: " exactly for URLs containing "go", and is "Vidshare: SD" exactly for URLs with "sha" but no "go" |
| ArabLionz.Label | src/ar/arablionz/src/eu/kanade/tachiyomi/animeextension/ar/arablionz/ArabLionz.kt:122-133 | a label longer than 15 characters becomes "480p"; a shorter one is kept; the result is never longer than 15 |
| ArabLionz.InlineVideos | src/ar/arablionz/src/eu/kanade/tachiyomi/animeextension/ar/arablionz/ArabLionz.kt:122-133 | a missing script throws; otherwise one video per VidBom entry, in order, playing the entry's file |
| ArabLionz.InlineQualityShape | src/ar/arablionz/src/eu/kanade/tachiyomi/animeextension/ar/arablionz/ArabLionz.kt:122-133 | every quality is "<Host>: " followed by a label of at most 15 characters |
| ArabLionz.PopularAnimeParse | src/ar/arablionz/src/eu/kanade/tachiyomi/animeextension/ar/arablionz/ArabLionz.kt:34-47 | the listing loop keeps exactly the items whose badge is not excluded, in page order, and reports the next-page match |
| ArabLionz.KeptIffNotExcluded | src/ar/arablionz/src/eu/kanade/tachiyomi/animeextension/ar/arablionz/ArabLionz.kt:34-47 | an item is listed, in place, exactly when its badge carries none of the three excluded phrases |
| ArabLionz.EpisodeListParse | src/ar/arablionz/src/eu/kanade/tachiyomi/animeextension/ar/arablionz/ArabLionz.kt:61-103 | the append loops build exactly the episode list: season blocks, else links, else one "مشاهدة" entry at the page |
| ArabLionz.EpisodeList | src/ar/arablionz/src/eu/kanade/tachiyomi/animeextension/ar/arablionz/ArabLionz.kt:88-93 | a page with neither season blocks nor episode links is one "مشاهدة" episode at the page |
| ArabLionz.SeasonBlockWins | src/ar/arablionz/src/eu/kanade/tachiyomi/animeextension/ar/arablionz/ArabLionz.kt:64-82 | with a season block, the plain links are ignored and each season link becomes "<season> <link text>", numbered by its digits |
| ArabLionz.EpisodeLinksListed | src/ar/arablionz/src/eu/kanade/tachiyomi/animeextension/ar/arablionz/ArabLionz.kt:83-103 | without season blocks each link is an episode named by its text and numbered by its digits; a link without a digit makes the list throw |
| ArabLionz.SeasonOf | src/ar/arablionz/src/eu/kanade/tachiyomi/animeextension/ar/arablionz/ArabLionz.kt:66-80 | the loop over one season block builds that season's episodes |
| ArabLionz.RouteOf | src/ar/arablionz/src/eu/kanade/tachiyomi/animeextension/ar/arablionz/ArabLionz.kt:140-152 | a VidBom host match wins, then "ok", then "mixdrop"; no route exactly when none of them applies |
| ArabLionz.SilentServer | src/ar/arablionz/src/eu/kanade/tachiyomi/animeextension/ar/arablionz/ArabLionz.kt:140-152 | a server with no route, or whose extraction throws, adds no video wherever it stands |
| Tuktuk.Sort | src/ar/tuktuk/src/eu/kanade/tachiyomi/animeextension/ar/tuktuk/Tuktuk.kt:209-214 | an unset preference throws (`!!`); a set one sorts |
| Tuktuk.SortMatchingFirst | src/ar/tuktuk/src/eu/kanade/tachiyomi/animeextension/ar/tuktuk/Tuktuk.kt:209-214 | the sort only reorders, matching videos come first, and each group is in reverse input order |
| Tuktuk.ExtractorFor | src/ar/tuktuk/src/eu/kanade/tachiyomi/animeextension/ar/tuktuk/Tuktuk.kt:185-207 | "ok.ru" in the URL picks OK.ru; otherwise the label picks VidBom, Dood, Mp4Upload and the rest in the source's order |
| Tuktuk.OkRuBeforeLabels | src/ar/tuktuk/src/eu/kanade/tachiyomi/animeextension/ar/tuktuk/Tuktuk.kt:185-207 | an "ok.ru" URL goes to OK.ru whatever the label says |
| Tuktuk.ServerVideos | src/ar/tuktuk/src/eu/kanade/tachiyomi/animeextension/ar/tuktuk/Tuktuk.kt:151-177 | an "iframe" link yields one video made of the fetched body and fails with the fetch; otherwise a server no extractor claims yields nothing and a claimed one yields what its extractor returned |
| Tuktuk.SilentServer | src/ar/tuktuk/src/eu/kanade/tachiyomi/animeextension/ar/tuktuk/Tuktuk.kt:145-207 | a server with an unmatched label, or whose extractor failed, adds no video wherever it stands |
| Tuktuk.EpisodeList | src/ar/tuktuk/src/eu/kanade/tachiyomi/animeextension/ar/tuktuk/Tuktuk.kt:106-128 | a page with no season is one watch episode at `<page>/watch/`; with seasons the list throws exactly when the breadcrumb text is missing |
| Tuktuk.EpisodeListParse | src/ar/tuktuk/src/eu/kanade/tachiyomi/animeextension/ar/tuktuk/Tuktuk.kt:98-132 | the loop over the seasons in reverse, appending each one's links, builds exactly the episode list |
| Tuktuk.AddSeason | src/ar/tuktuk/src/eu/kanade/tachiyomi/animeextension/ar/tuktuk/Tuktuk.kt:121-126 | one season's pass appends that season's episodes, one per link in document order, to the list |
| Tuktuk.EpisodeNameDigits | src/ar/tuktuk/src/eu/kanade/tachiyomi/animeextension/ar/tuktuk/Tuktuk.kt:121-125 | every episode name is "<season> : الحلقة " followed by the digits of the episode text and nothing else |
| Tuktuk.SearchUrl | src/ar/tuktuk/src/eu/kanade/tachiyomi/animeextension/ar/tuktuk/Tuktuk.kt:226-246 | a non-blank query searches by text; otherwise the first chosen category lists its page, or the home page when none is chosen; a state past the table throws |
| Tuktuk.ThumbnailAttribute | src/ar/tuktuk/src/eu/kanade/tachiyomi/animeextension/ar/tuktuk/Tuktuk.kt:251 | the thumbnail attribute is "src" exactly on search-result pages |
| Tuktuk.SearchPagesUseSrc | src/ar/tuktuk/src/eu/kanade/tachiyomi/animeextension/ar/tuktuk/Tuktuk.kt:226-251 | every text-search page reads thumbnails from "src" |
| Tuktuk.ListingPagesUseDataSrc | src/ar/tuktuk/src/eu/kanade/tachiyomi/animeextension/ar/tuktuk/Tuktuk.kt:226-251 | the listing and category pages read thumbnails from "data-src" |
| Shahid4U.SortMatchingFirst | src/ar/shahid4u/src/eu/kanade/tachiyomi/animeextension/ar/shahid4u/Shahid4U.kt:228-233 | with the stored preference or its default the sort only reorders, matching videos come first, and each group is in reverse input order |
| Shahid4U.EntryValues | src/ar/shahid4u/src/eu/kanade/tachiyomi/animeextension/ar/shahid4u/Shahid4U.kt:388-389 | there is one stored value per quality entry |
| Shahid4U.EntryValuesAreNumbers | src/ar/shahid4u/src/eu/kanade/tachiyomi/animeextension/ar/shahid4u/Shahid4U.kt:364-389 | each stored value is its entry without the final "p", and the default is the first of them |
| Shahid4U.EpisodeNameRules | src/ar/shahid4u/src/eu/kanade/tachiyomi/animeextension/ar/shahid4u/Shahid4U.kt:102-114 | an assembly name is trimmed, a movie is "مشاهدة" and a series episode keeps its title |
| Shahid4U.LinkEpisodesRead | src/ar/shahid4u/src/eu/kanade/tachiyomi/animeextension/ar/shahid4u/Shahid4U.kt:118-127 | one episode per link, in order, at the link with its suffix and named by the link's text |
| Shahid4U.AssemblyEpisodesRead | src/ar/shahid4u/src/eu/kanade/tachiyomi/animeextension/ar/shahid4u/Shahid4U.kt:118-127 | one episode per movie of an assembly, in page order, at the movie's "watch/" page |
| Shahid4U.SeasonEpisodesRead | src/ar/shahid4u/src/eu/kanade/tachiyomi/animeextension/ar/shahid4u/Shahid4U.kt:134-159 | one episode per link of a season tab, at the link, named "<season text> <link text>" |
| Shahid4U.EpisodeListParse | src/ar/shahid4u/src/eu/kanade/tachiyomi/animeextension/ar/shahid4u/Shahid4U.kt:100-164 | the `addEpisodeNew` loops build exactly the episode list: assembly movies, else the season tabs, else one watch entry |
| Shahid4U.AddSeason | src/ar/shahid4u/src/eu/kanade/tachiyomi/animeextension/ar/shahid4u/Shahid4U.kt:138-157 | the inner loop appends exactly one season's episodes to the list |
| Shahid4U.AssemblyPageWins | src/ar/shahid4u/src/eu/kanade/tachiyomi/animeextension/ar/shahid4u/Shahid4U.kt:118-127 | on an assembly page the season block is never read, and there is one episode per movie |
| Shahid4U.MoviePage | src/ar/shahid4u/src/eu/kanade/tachiyomi/animeextension/ar/shahid4u/Shahid4U.kt:128-130 | a page without a season block is one "مشاهدة" episode at the page itself |
| Shahid4U.SeriesCount | src/ar/shahid4u/src/eu/kanade/tachiyomi/animeextension/ar/shahid4u/Shahid4U.kt:134-159 | a series page has one episode per link of every season tab |
| Shahid4U.SeriesLast | src/ar/shahid4u/src/eu/kanade/tachiyomi/animeextension/ar/shahid4u/Shahid4U.kt:134-159 | the last season tab's episodes come last |
| Shahid4U.SeriesAppend | src/ar/shahid4u/src/eu/kanade/tachiyomi/animeextension/ar/shahid4u/Shahid4U.kt:134-159 | the season tabs contribute their episodes in tab order |
| Shahid4U.AssemblyDropsMovieWord | src/ar/shahid4u/src/eu/kanade/tachiyomi/animeextension/ar/shahid4u/Shahid4U.kt:105-106 | an assembly title "فيلم<rest>" is named by its trimmed rest |
| Shahid4U.AssemblyPlainTitle | src/ar/shahid4u/src/eu/kanade/tachiyomi/animeextension/ar/shahid4u/Shahid4U.kt:105-106 | an assembly title without the word and without surrounding blanks is kept |
| Shahid4U.SearchLink | src/ar/shahid4u/src/eu/kanade/tachiyomi/animeextension/ar/shahid4u/Shahid4U.kt:241-253 | "watch/" is appended to a search result link exactly when it is not an "assemblies" link |
| Shahid4U.WatchKeepsMarker | src/ar/shahid4u/src/eu/kanade/tachiyomi/animeextension/ar/shahid4u/Shahid4U.kt:241-253 | appending "watch/" neither creates nor removes the "assemblies" marker |
| Shahid4U.SearchLinkOnce | src/ar/shahid4u/src/eu/kanade/tachiyomi/animeextension/ar/shahid4u/Shahid4U.kt:241-253 | a link is an assembly link after the rewrite exactly when it was before; rewriting an assembly link again changes nothing |
| Shahid4U.SearchUrl | src/ar/shahid4u/src/eu/kanade/tachiyomi/animeextension/ar/shahid4u/Shahid4U.kt:259-278 | a non-blank query searches by text; otherwise the first chosen category lists its page, or "home2" when none is; a state past the table throws |
| Shahid4U.QueryWins | src/ar/shahid4u/src/eu/kanade/tachiyomi/animeextension/ar/shahid4u/Shahid4U.kt:259-278 | a non-blank query gives the same request whatever the filters say |
| Shahid4U.DefaultSearch | src/ar/shahid4u/src/eu/kanade/tachiyomi/animeextension/ar/shahid4u/Shahid4U.kt:259-278 | the default sheet with a blank query lists the "home2" pages |
| Shahid4U.LatestUrl | src/ar/shahid4u/src/eu/kanade/tachiyomi/animeextension/ar/shahid4u/Shahid4U.kt:307 | page 1 of the latest list is the bare base URL; any other page adds "/?page=<n>" |
| Shahid4U.LatestPagesDistinct | src/ar/shahid4u/src/eu/kanade/tachiyomi/animeextension/ar/shahid4u/Shahid4U.kt:307 | different pages are different requests |
| AnimeFlv.Sort | src/es/animeflv/src/eu/kanade/tachiyomi/animeextension/es/animeflv/AnimeFlv.kt:179-195 | the stored quality, or "Stape" when none is stored, is moved to the front by the insertion loop on exact label matches |
| AnimeFlv.NothingStoredStapeFirst | src/es/animeflv/src/eu/kanade/tachiyomi/animeextension/es/animeflv/AnimeFlv.kt:180-191 | with nothing stored, a "Stape" video moves ahead of a video labelled otherwise |
| AnimeFlv.SortPreferredFirst | src/es/animeflv/src/eu/kanade/tachiyomi/animeextension/es/animeflv/AnimeFlv.kt:179-195 | the insertion loop only reorders, puts every exactly matching video first and keeps each group in input order |
| AnimeFlv.AnimeUri | src/es/animeflv/src/eu/kanade/tachiyomi/animeextension/es/animeflv/AnimeFlv.kt:84-86 | the URI throws exactly when `anime_info` has fewer than three fields, and never holds a quote |
| AnimeFlv.ArrayEpisodes | src/es/animeflv/src/eu/kanade/tachiyomi/animeextension/es/animeflv/AnimeFlv.kt:88-97 | it throws exactly when some entry's number is not a float; otherwise one episode per array entry, in order, named and numbered after the entry's first field |
| AnimeFlv.ScriptEpisodesRules | src/es/animeflv/src/eu/kanade/tachiyomi/animeextension/es/animeflv/AnimeFlv.kt:83-98 | a script without `var anime_info =` adds nothing; one with it throws exactly on a short `anime_info` or an entry whose number is not a float, and otherwise adds one episode per entry |
| AnimeFlv.AllEpisodesFailure | src/es/animeflv/src/eu/kanade/tachiyomi/animeextension/es/animeflv/AnimeFlv.kt:79-101 | the parse throws exactly when some script of the page throws |
| AnimeFlv.EpisodeListParse | src/es/animeflv/src/eu/kanade/tachiyomi/animeextension/es/animeflv/AnimeFlv.kt:79-101 | the loop over the scripts builds exactly the episode list |
| AnimeFlv.ReadScript | src/es/animeflv/src/eu/kanade/tachiyomi/animeextension/es/animeflv/AnimeFlv.kt:83-98 | one script's pass gives its episodes in entry order, or the failure of its `anime_info` read or of an entry's `toFloat()` |
| AnimeFlv.ReadEntries | src/es/animeflv/src/eu/kanade/tachiyomi/animeextension/es/animeflv/AnimeFlv.kt:88-97 | the loop over the episodes array appends one episode per entry, in order, and throws at the first entry whose number is not a float |
| AnimeFlv.SplitRendered | src/es/animeflv/src/eu/kanade/tachiyomi/animeextension/es/animeflv/AnimeFlv.kt:87-88 | splitting the array contents on "],[" gives back one piece per episode written |
| AnimeFlv.PieceNumber | src/es/animeflv/src/eu/kanade/tachiyomi/animeextension/es/animeflv/AnimeFlv.kt:90 | removing the brackets of a piece and taking its first field gives the episode number written |
| AnimeFlv.ArrayRoundTrip | src/es/animeflv/src/eu/kanade/tachiyomi/animeextension/es/animeflv/AnimeFlv.kt:87-97 | an episodes array the page wrote reads back exactly when every number is a plain decimal, and then gives one episode per entry, in order, at "/ver/<uri>-<n>", named "Episodio <n>" |
| AnimeFlv.EmptyArrayThrows | src/es/animeflv/src/eu/kanade/tachiyomi/animeextension/es/animeflv/AnimeFlv.kt:87-95 | an empty array `var episodes = [];` is the single entry "", whose `toFloat()` throws |
| AnimeFlv.EntriesOfScript | src/es/animeflv/src/eu/kanade/tachiyomi/animeextension/es/animeflv/AnimeFlv.kt:87 | the array is found after its opening text, cut at "];" and trimmed, giving the written pieces |
| AnimeFlv.UriOfScript | src/es/animeflv/src/eu/kanade/tachiyomi/animeextension/es/animeflv/AnimeFlv.kt:84-86 | the third field of `anime_info`, written in quotes, reads back without them |
| AnimeFlv.ParseStatus | src/es/animeflv/src/eu/kanade/tachiyomi/animeextension/es/animeflv/AnimeFlv.kt:287-293 | "En emision" gives ONGOING, else "Finalizado" gives COMPLETED, else UNKNOWN |
| AnimeFlv.ExternalOrInternalImg | src/es/animeflv/src/eu/kanade/tachiyomi/animeextension/es/animeflv/AnimeFlv.kt:283-285 | a URL with "https" is kept; any other is resolved against the site |
| AnimeFlv.ImgIdempotent | src/es/animeflv/src/eu/kanade/tachiyomi/animeextension/es/animeflv/AnimeFlv.kt:283-285 | resolving an image URL twice is resolving it once |
| AnimeFlv.FindGenre | src/es/animeflv/src/eu/kanade/tachiyomi/animeextension/es/animeflv/AnimeFlv.kt:197-206 | a genre select is found exactly when the sheet has one, and the state read is that of the first genre select, at whatever position |
| AnimeFlv.SearchUrl | src/es/animeflv/src/eu/kanade/tachiyomi/animeextension/es/animeflv/AnimeFlv.kt:197-206 | a sheet without a genre select throws; then a non-blank query searches by text; then a genre other than the first lists that genre; else all genres |
| AnimeFlv.DefaultSearch | src/es/animeflv/src/eu/kanade/tachiyomi/animeextension/es/animeflv/AnimeFlv.kt:197-211 | the default sheet browses all genres |
| AnimeFlv.AppSheet | src/es/animeflv/src/eu/kanade/tachiyomi/animeextension/es/animeflv/AnimeFlv.kt:197-217 | on the sheet the app builds (a header then the genre select), with a blank query: state 0 browses all, a state in the table lists that genre, a state past it throws |
| AnimeFlv.QueryIgnoresGenre | src/es/animeflv/src/eu/kanade/tachiyomi/animeextension/es/animeflv/AnimeFlv.kt:197-206 | with a genre select on the sheet a text query gives the same request whatever genre is chosen |
| Cimalek.VariantVideos | src/ar/cimalek/src/eu/kanade/tachiyomi/animeextension/ar/cimalek/Cimalek.kt:148-152 | one video per playlist segment, in playlist order, each labelled with the server index |
| Cimalek.PlaylistVideos | src/ar/cimalek/src/eu/kanade/tachiyomi/animeextension/ar/cimalek/Cimalek.kt:147-153 | a request that did not end on an "m3u8" URL yields nothing; one that did yields one video per segment |
| Cimalek.ExtractVideos | src/ar/cimalek/src/eu/kanade/tachiyomi/animeextension/ar/cimalek/Cimalek.kt:134-154 | the append loop over the segments builds exactly the server's videos |
| Cimalek.VariantQualityRead | src/ar/cimalek/src/eu/kanade/tachiyomi/animeextension/ar/cimalek/Cimalek.kt:149 | the quality of a written `#EXT-X-STREAM-INF` variant is its height followed by "p" |
| Cimalek.VariantUrlRead | src/ar/cimalek/src/eu/kanade/tachiyomi/animeextension/ar/cimalek/Cimalek.kt:150 | the play URL of a written variant is its URI line with "https" turned into "http" |
| Cimalek.VariantVideoRead | src/ar/cimalek/src/eu/kanade/tachiyomi/animeextension/ar/cimalek/Cimalek.kt:148-151 | a written variant reads back as one video labelled "Server <index>: <height>p" playing its URI |
| Cimalek.SegmentsRead | src/ar/cimalek/src/eu/kanade/tachiyomi/animeextension/ar/cimalek/Cimalek.kt:148 | cutting a written master playlist at its tags gives the written variants back |
| Cimalek.PlaylistRoundTrip | src/ar/cimalek/src/eu/kanade/tachiyomi/animeextension/ar/cimalek/Cimalek.kt:147-153 | reading a master playlist the server wrote gives one video per variant, in order, with its height and URI |
| Cimalek.NotPlaylist | src/ar/cimalek/src/eu/kanade/tachiyomi/animeextension/ar/cimalek/Cimalek.kt:147 | a server whose request did not end on "m3u8" adds nothing, whatever its body |
| Cimalek.Version | src/ar/cimalek/src/eu/kanade/tachiyomi/animeextension/ar/cimalek/Cimalek.kt:115-116 | a page without the `dtAjax` script throws |
| Cimalek.VersionRead | src/ar/cimalek/src/eu/kanade/tachiyomi/animeextension/ar/cimalek/Cimalek.kt:116 | a version written as `ver":"<v>"` reads back as `v` |
| Cimalek.ServerResults | src/ar/cimalek/src/eu/kanade/tachiyomi/animeextension/ar/cimalek/Cimalek.kt:117-121 | one result per server, the k-th numbered k+1, a failing server giving no result |
| Cimalek.VideoList | src/ar/cimalek/src/eu/kanade/tachiyomi/animeextension/ar/cimalek/Cimalek.kt:113-122 | the video list throws exactly when the `dtAjax` script is missing |
| Cimalek.SeasonEpisodes | src/ar/cimalek/src/eu/kanade/tachiyomi/animeextension/ar/cimalek/Cimalek.kt:73-84 | one episode per link of a season page, in order |
| Cimalek.EpisodeList | src/ar/cimalek/src/eu/kanade/tachiyomi/animeextension/ar/cimalek/Cimalek.kt:58-88 | a "movies" URL is one "مشاهدة" episode at "<url>/watch/"; any other URL lists its seasons' episodes |
| Cimalek.AllSeasonsCount | src/ar/cimalek/src/eu/kanade/tachiyomi/animeextension/ar/cimalek/Cimalek.kt:69-85 | there is one episode per link on the fetched season pages |
| Cimalek.EpisodeNamed | src/ar/cimalek/src/eu/kanade/tachiyomi/animeextension/ar/cimalek/Cimalek.kt:74-81 | a "(n)" in the episode text names it "الموسم <season> الحلقة <n>", numbers it "<season>.<n>" and links "<href>/watch/" |
| Cimalek.DetailsStatus | src/ar/cimalek/src/eu/kanade/tachiyomi/animeextension/ar/cimalek/Cimalek.kt:102 | a genre list mentioning "افلام" is COMPLETED; anything else is UNKNOWN |
| Cimalek.GenresSorted | src/ar/cimalek/src/eu/kanade/tachiyomi/animeextension/ar/cimalek/Cimalek.kt:226-231 | the genre table is in `sortedArray()` order |
| Cimalek.FirstOf | src/ar/cimalek/src/eu/kanade/tachiyomi/animeextension/ar/cimalek/Cimalek.kt:164-166 | `find { it is ... }` finds a filter exactly when the sheet has one of that kind, and returns the state of the first filter of that kind |
| Cimalek.BlankSearch | src/ar/cimalek/src/eu/kanade/tachiyomi/animeextension/ar/cimalek/Cimalek.kt:171-179 | neither a section nor a type chosen throws the "choose" message |
| Cimalek.SearchUrl | src/ar/cimalek/src/eu/kanade/tachiyomi/animeextension/ar/cimalek/Cimalek.kt:162-187 | a sheet missing any of the three selects throws (the casts); with all three, a non-blank query searches "/page/<n>?s=<query>" and a blank one is the listing of the first section, category and genre selects' states |
| Cimalek.SearchAnimeRequest | src/ar/cimalek/src/eu/kanade/tachiyomi/animeextension/ar/cimalek/Cimalek.kt:162-187 | the request built step by step is exactly the modelled search URL |
| Cimalek.BlankRequest | src/ar/cimalek/src/eu/kanade/tachiyomi/animeextension/ar/cimalek/Cimalek.kt:170-185 | the builder steps for a blank query give exactly the modelled listing URL or the "choose" failure |
| Cimalek.ListingRequest | src/ar/cimalek/src/eu/kanade/tachiyomi/animeextension/ar/cimalek/Cimalek.kt:170-185 | four path segments pushed on the root, then the optional `type` parameter, render as that path and query |
| Cimalek.SectionListing | src/ar/cimalek/src/eu/kanade/tachiyomi/animeextension/ar/cimalek/Cimalek.kt:171-184 | a chosen section lists "/category/<section>/page/<n>", with `type` when a type is chosen too; the genre is not used |
| Cimalek.GenreListing | src/ar/cimalek/src/eu/kanade/tachiyomi/animeextension/ar/cimalek/Cimalek.kt:174-184 | with no section but a type, the lowercased genre is listed and the type is sent |
| Cimalek.FirstOfAt | src/ar/cimalek/src/eu/kanade/tachiyomi/animeextension/ar/cimalek/Cimalek.kt:164-166 | `find` returns the state of the first filter of a kind, whatever follows it |
| Cimalek.ChosenSelects | src/ar/cimalek/src/eu/kanade/tachiyomi/animeextension/ar/cimalek/Cimalek.kt:162-187 | on any sheet with a blank query, the first section, category and genre selects decide the listing |
| Cimalek.AppSheet | src/ar/cimalek/src/eu/kanade/tachiyomi/animeextension/ar/cimalek/Cimalek.kt:162-200 | on the sheet the app builds, with any states, a blank query gives the listing of those states and a text query the search URL |
| Cimalek.DefaultSheetThrows | src/ar/cimalek/src/eu/kanade/tachiyomi/animeextension/ar/cimalek/Cimalek.kt:163-179 | the default sheet with a blank query throws the "choose" message |
| Mintmanga.ListOffset | src/ru/mintmanga/src/eu/kanade/tachiyomi/extension/ru/mintmanga/Mintmanga.kt:67-71 | the offset is `70 * (page - 1)` reduced to a 32-bit `Int` |
| Mintmanga.FirstPageOffset | src/ru/mintmanga/src/eu/kanade/tachiyomi/extension/ru/mintmanga/Mintmanga.kt:67-71 | page 1 starts at offset 0 |
| Mintmanga.NextPageOffset | src/ru/mintmanga/src/eu/kanade/tachiyomi/extension/ru/mintmanga/Mintmanga.kt:67-71 | consecutive pages are 70 apart modulo 2^32, exactly 70 while the offsets fit in an `Int` |
| Mintmanga.FirstOrdering | src/ru/mintmanga/src/eu/kanade/tachiyomi/extension/ru/mintmanga/Mintmanga.kt:123-129 | the first ordering select set above 0 at or after `i`; none before it is set |
| Mintmanga.SearchMangaRequest | src/ru/mintmanga/src/eu/kanade/tachiyomi/extension/ru/mintmanga/Mintmanga.kt:94-136 | the filter walk builds exactly the modelled search URL |
| Mintmanga.SearchSheet | src/ru/mintmanga/src/eu/kanade/tachiyomi/extension/ru/mintmanga/Mintmanga.kt:96-131 | the walk over one filter sheet builds exactly the modelled result |
| Mintmanga.AddEntries | src/ru/mintmanga/src/eu/kanade/tachiyomi/extension/ru/mintmanga/Mintmanga.kt:98-122 | one group adds a parameter per entry that is not ignored, in entry order, and leaves the path unchanged |
| Mintmanga.EntryInPlace | src/ru/mintmanga/src/eu/kanade/tachiyomi/extension/ru/mintmanga/Mintmanga.kt:98-122 | each entry adds its own parameter in place; an ignored entry adds none |
| Mintmanga.DefaultSearch | src/ru/mintmanga/src/eu/kanade/tachiyomi/extension/ru/mintmanga/Mintmanga.kt:94-136 | the default sheet adds no parameter, so an empty search is the bare search page |
| Mintmanga.OrderingWins | src/ru/mintmanga/src/eu/kanade/tachiyomi/extension/ru/mintmanga/Mintmanga.kt:123-129 | an ordering above 0 decides the URL; the query and the entries before it are not used |
| Mintmanga.OrderingsMatchLists | src/ru/mintmanga/src/eu/kanade/tachiyomi/extension/ru/mintmanga/Mintmanga.kt:67-71 | the "rate" and "updated" orderings are the popular and latest lists |
| Mintmanga.SingleEntryUrl | src/ru/mintmanga/src/eu/kanade/tachiyomi/extension/ru/mintmanga/Mintmanga.kt:100-135 | one included entry gives "?<id>=in" and one excluded entry "?<id>=ex": the final replace undoes the escaping of the leading "=" |
| Mintmanga.CollapsedEntry | src/ru/mintmanga/src/eu/kanade/tachiyomi/extension/ru/mintmanga/Mintmanga.kt:135 | one parameter whose value starts with "=", rendered and collapsed, reads "?<id>=<value>" |
| Mintmanga.ParseStatus | src/ru/mintmanga/src/eu/kanade/tachiyomi/extension/ru/mintmanga/Mintmanga.kt:194-199 | a ban notice gives LICENSED; else the ongoing mark ONGOING; else the completed mark COMPLETED; else UNKNOWN |
| Mintmanga.BanNoticeWins | src/ru/mintmanga/src/eu/kanade/tachiyomi/extension/ru/mintmanga/Mintmanga.kt:194-199 | a ban notice anywhere in the block makes the title licensed |
| Mintmanga.AgeLabel | src/ru/mintmanga/src/eu/kanade/tachiyomi/extension/ru/mintmanga/Mintmanga.kt:169-174 | the label is "18+" exactly for "NC-17" and "R18+", and "16+" otherwise |
| Mintmanga.Scanlator | src/ru/mintmanga/src/eu/kanade/tachiyomi/extension/ru/mintmanga/Mintmanga.kt:228-235 | a blank title attribute gives an empty scanlator |
| Mintmanga.PlainScanlator | src/ru/mintmanga/src/eu/kanade/tachiyomi/extension/ru/mintmanga/Mintmanga.kt:228-235 | a title attribute without translator markers is taken as it is |
| Mintmanga.FirstDigit | src/ru/mintmanga/src/eu/kanade/tachiyomi/extension/ru/mintmanga/Mintmanga.kt:244 | the index of the first ASCII digit, with no digit before it |
| Mintmanga.StripTitleWords | src/ru/mintmanga/src/eu/kanade/tachiyomi/extension/ru/mintmanga/Mintmanga.kt:237-242 | the loop over the title's words rewrites the name exactly as the modelled word stripping |
| Mintmanga.ChapterFromElement | src/ru/mintmanga/src/eu/kanade/tachiyomi/extension/ru/mintmanga/Mintmanga.kt:220-248 | the chapter URL gets "?mtr=true", the scanlator comes from the title attribute, and the name is the modelled name, already trimmed |
| Mintmanga.ChapterNameTrimmed | src/ru/mintmanga/src/eu/kanade/tachiyomi/extension/ru/mintmanga/Mintmanga.kt:220-248 | the chapter name never starts or ends with whitespace |
| Mintmanga.NoDigitKeepsName | src/ru/mintmanga/src/eu/kanade/tachiyomi/extension/ru/mintmanga/Mintmanga.kt:243-248 | a name without any digit keeps its ellipsis |
| Mintmanga.EllipsisBeforeNumber | src/ru/mintmanga/src/eu/kanade/tachiyomi/extension/ru/mintmanga/Mintmanga.kt:243-248 | "<pre>...<rest>" with no digit in `pre` and a digit in `rest` is cut to the trimmed `rest` |
| Mintmanga.NumberBeforeEllipsis | src/ru/mintmanga/src/eu/kanade/tachiyomi/extension/ru/mintmanga/Mintmanga.kt:243-248 | "<pre>...<rest>" with a digit in `pre` keeps the whole name |
| Mintmanga.ReaderRegion | src/ru/mintmanga/src/eu/kanade/tachiyomi/extension/ru/mintmanga/Mintmanga.kt:284-286 | the region exists exactly when the reader marker and a later ");" are present; it starts with the marker and holds no ");" |
| Mintmanga.RemoveQuotes | src/ru/mintmanga/src/eu/kanade/tachiyomi/extension/ru/mintmanga/Mintmanga.kt:295 | the result holds no quote character |
| Mintmanga.PageListParse | src/ru/mintmanga/src/eu/kanade/tachiyomi/extension/ru/mintmanga/Mintmanga.kt:282-307 | a missing region throws; otherwise one page per match, numbered from 0, and the parse throws exactly when a match has fewer than three fields |
| Mintmanga.ReadMatches | src/ru/mintmanga/src/eu/kanade/tachiyomi/extension/ru/mintmanga/Mintmanga.kt:293-306 | the loop over the matches gives one page per match, numbered from 0, or throws at a match lacking a field |
| Mintmanga.MatchFields | src/ru/mintmanga/src/eu/kanade/tachiyomi/extension/ru/mintmanga/Mintmanga.kt:288-295 | a match `'a','b',"c"` whose fields hold no quote or comma gives back exactly those three fields |
| Mintmanga.PageUrlOfMatch | src/ru/mintmanga/src/eu/kanade/tachiyomi/extension/ru/mintmanga/Mintmanga.kt:295-304 | a "/static/" path with an empty host field is served by the site; a "/manga/" host joins the first and third field; otherwise host, first and third field |
| EgyDead.SortMatchingFirst | src/ar/egydead/src/eu/kanade/tachiyomi/animeextension/ar/egydead/EgyDead.kt:147-152 | with the stored preference or "1080" the sort only reorders, matching videos come first, and each group is in reverse input order |
| EgyDead.ExtractorFor | src/ar/egydead/src/eu/kanade/tachiyomi/animeextension/ar/egydead/EgyDead.kt:133-141 | the StreamWish markers pick StreamWish, else "dood" Dood, else "mixdrop" MixDrop, else no extractor |
| EgyDead.VideoFromRoutedServer | src/ar/egydead/src/eu/kanade/tachiyomi/animeextension/ar/egydead/EgyDead.kt:126-141 | every listed video was returned by the extractor of a server some extractor claims |
| EgyDead.UnroutedServerSilent | src/ar/egydead/src/eu/kanade/tachiyomi/animeextension/ar/egydead/EgyDead.kt:126-141 | a link no extractor claims adds nothing, wherever it stands |
| EgyDead.LinkEpisode | src/ar/egydead/src/eu/kanade/tachiyomi/animeextension/ar/egydead/EgyDead.kt:73-79 | a link reads exactly when its text has a readable digit; it keeps its href and digits, and on a season page its name is prefixed with the season |
| EgyDead.MovieEpisodes | src/ar/egydead/src/eu/kanade/tachiyomi/animeextension/ar/egydead/EgyDead.kt:64-67 | one episode per assembly movie, at its href and named by its title, without a number |
| EgyDead.Fetch | src/ar/egydead/src/eu/kanade/tachiyomi/animeextension/ar/egydead/EgyDead.kt:91 | a page is fetched exactly when the site serves that URL |
| EgyDead.AddEpisodes | src/ar/egydead/src/eu/kanade/tachiyomi/animeextension/ar/egydead/EgyDead.kt:69-104 | the recursive `addEpisodes` appends exactly the modelled episodes of the page to the list |
| EgyDead.AddSeasons | src/ar/egydead/src/eu/kanade/tachiyomi/animeextension/ar/egydead/EgyDead.kt:90-92 | the loop over the season links appends each fetched season page's episodes, in link order |
| EgyDead.SeasonPagesStep | src/ar/egydead/src/eu/kanade/tachiyomi/animeextension/ar/egydead/EgyDead.kt:90-92 | one more season link adds its page's episodes after the earlier ones, or fails when the page cannot be fetched |
| EgyDead.AddSeasonPage | src/ar/egydead/src/eu/kanade/tachiyomi/animeextension/ar/egydead/EgyDead.kt:72-80 | the `final` pass over a season page appends each link's episode named with the page's season |
| EgyDead.MapEpisodes | src/ar/egydead/src/eu/kanade/tachiyomi/animeextension/ar/egydead/EgyDead.kt:86-88 | the episode links of a series page map to exactly the modelled link episodes |
| EgyDead.LinkEpisodesOutcome | src/ar/egydead/src/eu/kanade/tachiyomi/animeextension/ar/egydead/EgyDead.kt:73-88 | the links read without failure exactly when every link's text has a readable digit |
| EgyDead.LinkEpisodeAt | src/ar/egydead/src/eu/kanade/tachiyomi/animeextension/ar/egydead/EgyDead.kt:73-88 | a successful read has one episode per link, the k-th being the k-th link's |
| EgyDead.SeasonNameWord | src/ar/egydead/src/eu/kanade/tachiyomi/animeextension/ar/egydead/EgyDead.kt:75-78 | on a season page titled "...الموسم <w> ..." every episode is named "الموسم <w> <name>" |
| EgyDead.PlainSeasonTitle | src/ar/egydead/src/eu/kanade/tachiyomi/animeextension/ar/egydead/EgyDead.kt:75-78 | a season title without the season word leaves the link names unchanged |
| EgyDead.FallbackEpisode | src/ar/egydead/src/eu/kanade/tachiyomi/animeextension/ar/egydead/EgyDead.kt:98-103 | a page that is none of assembly, series, season or episode is one "مشاهدة" episode at its own URL |
| EgyDead.EpisodeFollowsBreadcrumb | src/ar/egydead/src/eu/kanade/tachiyomi/animeextension/ar/egydead/EgyDead.kt:94-97 | an episode page lists what the page its breadcrumb links to lists |
| EgyDead.AnimeStatus | src/ar/egydead/src/eu/kanade/tachiyomi/animeextension/ar/egydead/EgyDead.kt:230-231 | the status is COMPLETED or ONGOING, never anything else |
| EgyDead.CompletedMarkers | src/ar/egydead/src/eu/kanade/tachiyomi/animeextension/ar/egydead/EgyDead.kt:230-231 | "كامل" or "فيلم" anywhere in the title makes it COMPLETED |
| EgyDead.SearchUrl | src/ar/egydead/src/eu/kanade/tachiyomi/animeextension/ar/egydead/EgyDead.kt:162-183 | a non-blank query searches; a blank one throws exactly when the chosen category is past the table, and lists the home page when none is chosen |
| EgyDead.CategoryListing | src/ar/egydead/src/eu/kanade/tachiyomi/animeextension/ar/egydead/EgyDead.kt:165-177 | with a blank query the first category set above 0 lists "<base>/<its query>/?page=<n>/", whatever the selects after it say |
| EgyDead.QueryReadBack | src/ar/egydead/src/eu/kanade/tachiyomi/animeextension/ar/egydead/EgyDead.kt:163-164 | the text after "?s=" in the search URL is the query as typed, whatever the filters, after the page prefix |
| AsianLoad.Sort | src/en/asianload/src/eu/kanade/tachiyomi/animeextension/en/asianload/AsianLoad.kt:172-188 | no stored quality leaves the list as it is; a stored one runs the insertion loop on label containment |
| AsianLoad.SortPreferredFirst | src/en/asianload/src/eu/kanade/tachiyomi/animeextension/en/asianload/AsianLoad.kt:172-188 | the insertion loop only reorders, puts every matching video first and keeps each group in input order |
| AsianLoad.ExtractorFor | src/en/asianload/src/eu/kanade/tachiyomi/animeextension/en/asianload/AsianLoad.kt:110-163 | StreamSB hosts, then "dood", then Fembed hosts, then "streamtape" pick the extractor, in that order |
| AsianLoad.VideosFromElement | src/en/asianload/src/eu/kanade/tachiyomi/animeextension/en/asianload/AsianLoad.kt:103-166 | the loop over the server items collects exactly the modelled videos, in document order |
| AsianLoad.CollectedAppend | src/en/asianload/src/eu/kanade/tachiyomi/animeextension/en/asianload/AsianLoad.kt:103-166 | collecting two runs of servers is collecting each and concatenating |
| AsianLoad.VideoFromRoutedServer | src/en/asianload/src/eu/kanade/tachiyomi/animeextension/en/asianload/AsianLoad.kt:103-166 | every collected video comes from a server some extractor claims |
| AsianLoad.UnroutedServerSilent | src/en/asianload/src/eu/kanade/tachiyomi/animeextension/en/asianload/AsianLoad.kt:103-166 | a URL no extractor claims adds nothing, wherever it stands |
| AsianLoad.SingleVideoServer | src/en/asianload/src/eu/kanade/tachiyomi/animeextension/en/asianload/AsianLoad.kt:103-166 | a single-video server adds at most one video, and one exactly when its extractor returned one |
| AsianLoad.EpisodeFromElement | src/en/asianload/src/eu/kanade/tachiyomi/animeextension/en/asianload/AsianLoad.kt:71-82 | an empty number text is episode 1; any other must read as a number, or the parse throws |
| AsianLoad.NumberedEpisode | src/en/asianload/src/eu/kanade/tachiyomi/animeextension/en/asianload/AsianLoad.kt:71-82 | a name text "<pre>Episode <n>" is named "<type> Episode: <name text>" and numbered n |
| AsianLoad.EmptyNumberIsOne | src/en/asianload/src/eu/kanade/tachiyomi/animeextension/en/asianload/AsianLoad.kt:71-82 | a name text ending right after "Episode " is episode 1 |
| AsianLoad.SlugName | src/en/asianload/src/eu/kanade/tachiyomi/animeextension/en/asianload/AsianLoad.kt:71-82 | a slug "<pre>episode-<rest>" names the episode "<type> Episode: <rest>" |
| AsianLoad.SearchUrl | src/en/asianload/src/eu/kanade/tachiyomi/animeextension/en/asianload/AsianLoad.kt:204-222 | a non-blank query searches by keyword; otherwise the first chosen type lists its page, and with none the request throws |
| AsianLoad.KeywordReadBack | src/en/asianload/src/eu/kanade/tachiyomi/animeextension/en/asianload/AsianLoad.kt:204-222 | the keyword parameter carries the query as typed when it has no "&" |
| AsianLoad.TypeListing | src/en/asianload/src/eu/kanade/tachiyomi/animeextension/en/asianload/AsianLoad.kt:208-215 | with a blank query the first type set above 0 lists "<base>/<its query>?page=<n>", whatever the selects after it say |
| AsianLoad.RecentlyAddedSub | src/en/asianload/src/eu/kanade/tachiyomi/animeextension/en/asianload/AsianLoad.kt:204-222 | "Recently Added Sub" lists the root path with the page parameter |
| AskTv.HostUrlTrimmed | src/ar/asktv/src/eu/kanade/tachiyomi/animeextension/ar/asktv/AskTv.kt:210-213 | without a stored domain the site is "https://arab3sk.net"; the host is always already trimmed |
| AskTv.HostUrlPadded | src/ar/asktv/src/eu/kanade/tachiyomi/animeextension/ar/asktv/AskTv.kt:210-213 | a domain typed with surrounding blanks is used without them |
| AskTv.SortMatchingFirst | src/ar/asktv/src/eu/kanade/tachiyomi/animeextension/ar/asktv/AskTv.kt:122-127 | with the stored preference or "1080p" the sort only reorders, matching videos come first, and each group is in reverse input order |
| AskTv.ExtractorFor | src/ar/asktv/src/eu/kanade/tachiyomi/animeextension/ar/asktv/AskTv.kt:140-172 | a server name gets no extractor exactly when it is none of the six known names |
| AskTv.ExtractorNames | src/ar/asktv/src/eu/kanade/tachiyomi/animeextension/ar/asktv/AskTv.kt:140-172 | each extractor is chosen by its own name and by no other |
| AskTv.EmbedAddressReadBack | src/ar/asktv/src/eu/kanade/tachiyomi/animeextension/ar/asktv/AskTv.kt:142-169 | the server id reads back from the embed address by removing the extractor's prefix and suffix |
| AskTv.VideoFromKnownServer | src/ar/asktv/src/eu/kanade/tachiyomi/animeextension/ar/asktv/AskTv.kt:129-172 | every video comes from a server with a known name, as its extractor returned it for the embed address |
| AskTv.UnknownServerSilent | src/ar/asktv/src/eu/kanade/tachiyomi/animeextension/ar/asktv/AskTv.kt:129-134 | a server with an unknown name adds nothing, wherever it stands |
| AskTv.ArticleEpisode | src/ar/asktv/src/eu/kanade/tachiyomi/animeextension/ar/asktv/AskTv.kt:90-95 | an article reads exactly when its number text has a readable digit; the episode goes to the decoded link and is numbered by the digits |
| AskTv.EpisodeListParse | src/ar/asktv/src/eu/kanade/tachiyomi/animeextension/ar/asktv/AskTv.kt:73-103 | the `addEpisodeNew` loop builds exactly the episode list: one per article, or one "مشاهدة" episode at the page when there is none |
| AskTv.ArticleEpisodeAt | src/ar/asktv/src/eu/kanade/tachiyomi/animeextension/ar/asktv/AskTv.kt:90-95 | a successful read has one episode per article, the k-th being the k-th article's |
| AskTv.EpisodeNameCarriesNumber | src/ar/asktv/src/eu/kanade/tachiyomi/animeextension/ar/asktv/AskTv.kt:93-94 | an episode's name is "الحلفة " followed by exactly its number text |
| AskTv.LinkTargetOfRedirect | src/ar/asktv/src/eu/kanade/tachiyomi/animeextension/ar/asktv/AskTv.kt:92 | a redirect "<pre>url=<code>" gives the code, with an escaped trailing "%3D" turned back into "=" |
| AskTv.ThumbnailOfStyle | src/ar/asktv/src/eu/kanade/tachiyomi/animeextension/ar/asktv/AskTv.kt:57-58 | the popular thumbnail is the style's `url(...)` address with its "large" turned into "long" |
| AskTv.PlainLinks | src/ar/asktv/src/eu/kanade/tachiyomi/animeextension/ar/asktv/AskTv.kt:176-200 | a link without "url=" is used as it is by search and decoded whole by latest |
| AskTv.AnimeStatus | src/ar/asktv/src/eu/kanade/tachiyomi/animeextension/ar/asktv/AskTv.kt:111 | COMPLETED exactly when the page text has "الأخيرة", else ONGOING |
| AskTv.LastWordCompletes | src/ar/asktv/src/eu/kanade/tachiyomi/animeextension/ar/asktv/AskTv.kt:111 | "الأخيرة" anywhere in the page marks it completed |
| AskTv.SearchQueryReadBack | src/ar/asktv/src/eu/kanade/tachiyomi/animeextension/ar/asktv/AskTv.kt:188 | the segment after "/search/" is the query as typed when it has no "/" |
| A4U.PutLookup | src/ar/a4u/src/eu/kanade/tachiyomi/animeextension/ar/a4u/A4U.kt:118 | after `put(k, v)` the key `k` reads `v` and every other key reads as before |
| A4U.PutKeys | src/ar/a4u/src/eu/kanade/tachiyomi/animeextension/ar/a4u/A4U.kt:118 | `put` keeps the existing keys in place and adds a new one at the end |
| A4U.PlusLookup | src/ar/a4u/src/eu/kanade/tachiyomi/animeextension/ar/a4u/A4U.kt:118 | in `a + b` a key of `b` takes `b`'s value; any other key keeps `a`'s |
| A4U.PlusKeys | src/ar/a4u/src/eu/kanade/tachiyomi/animeextension/ar/a4u/A4U.kt:118 | `a`'s keys stay first and in order in `a + b`, every key of either map is kept, and none twice |
| A4U.Distinct | src/ar/a4u/src/eu/kanade/tachiyomi/animeextension/ar/a4u/A4U.kt:120 | `distinct()` keeps exactly the values of the list, each once |
| A4U.DistinctOrder | src/ar/a4u/src/eu/kanade/tachiyomi/animeextension/ar/a4u/A4U.kt:120 | `distinct()` keeps the values in the order of their first occurrences |
| A4U.VideoListLinks | src/ar/a4u/src/eu/kanade/tachiyomi/animeextension/ar/a4u/A4U.kt:111-123 | each video labels itself with its link, no link appears twice, and a link appears exactly when it is a value of the merged map |
| A4U.NoInputNoVideos | src/ar/a4u/src/eu/kanade/tachiyomi/animeextension/ar/a4u/A4U.kt:111-123 | without the `wl` input there is nothing to play |
| A4U.LaterMapWins | src/ar/a4u/src/eu/kanade/tachiyomi/animeextension/ar/a4u/A4U.kt:118 | a quality key present in several maps takes the last one's link: SD over HD over FHD |
| A4U.FhdFirst | src/ar/a4u/src/eu/kanade/tachiyomi/animeextension/ar/a4u/A4U.kt:118 | FHD's keys come first in the merged map, in FHD's order, and no key is listed twice |
| A4U.SharedLinkOnce | src/ar/a4u/src/eu/kanade/tachiyomi/animeextension/ar/a4u/A4U.kt:111-123 | the same link under two qualities plays once, at the first quality's place |
| A4U.SortMatchingFirst | src/ar/a4u/src/eu/kanade/tachiyomi/animeextension/ar/a4u/A4U.kt:131-136 | with the stored preference or its default the sort only reorders, matching videos come first, and each group is in reverse input order |
| A4U.EpisodeFromElement | src/ar/a4u/src/eu/kanade/tachiyomi/animeextension/ar/a4u/A4U.kt:68-72 | the episode keeps the link and text, and always has a number |
| A4U.EpisodeList | src/ar/a4u/src/eu/kanade/tachiyomi/animeextension/ar/a4u/A4U.kt:64 | one episode per link, last link first |
| A4U.PageOrder | src/ar/a4u/src/eu/kanade/tachiyomi/animeextension/ar/a4u/A4U.kt:64 | reversing the list again gives the page order |
| A4U.NumberedName | src/ar/a4u/src/eu/kanade/tachiyomi/animeextension/ar/a4u/A4U.kt:68-72 | a text ending in " <n>" is episode n |
| A4U.UnnumberedName | src/ar/a4u/src/eu/kanade/tachiyomi/animeextension/ar/a4u/A4U.kt:68-72 | a text whose last word is not a number is episode 0 |
| A4U.StatusOf | src/ar/a4u/src/eu/kanade/tachiyomi/animeextension/ar/a4u/A4U.kt:94-100 | "airing now" gives ONGOING, else "completed" COMPLETED; without the line the status stays UNKNOWN |
| A4U.AiringBeatsCompleted | src/ar/a4u/src/eu/kanade/tachiyomi/animeextension/ar/a4u/A4U.kt:94-100 | a line saying both is airing |
| A4U.DescriptionJoin | src/ar/a4u/src/eu/kanade/tachiyomi/animeextension/ar/a4u/A4U.kt:83-92 | the description is the info lines and the story tail joined with newlines |
| A4U.DescriptionLines | src/ar/a4u/src/eu/kanade/tachiyomi/animeextension/ar/a4u/A4U.kt:83-92 | single-line info texts and story read back line by line, the story after an empty line |
| A4U.FirstOf | src/ar/a4u/src/eu/kanade/tachiyomi/animeextension/ar/a4u/A4U.kt:145-147 | `find { it is ... }` finds a filter exactly when the sheet has one of that kind, and returns the state of the first filter of that kind |
| A4U.FirstOfAt | src/ar/a4u/src/eu/kanade/tachiyomi/animeextension/ar/a4u/A4U.kt:145-147 | `find` returns the state of the first filter of a kind, whatever follows it |
| A4U.SectionPart | src/ar/a4u/src/eu/kanade/tachiyomi/animeextension/ar/a4u/A4U.kt:150 | the section's `toUriPart()` succeeds exactly for a state inside the table, giving that entry's value |
| A4U.ListingSegment | src/ar/a4u/src/eu/kanade/tachiyomi/animeextension/ar/a4u/A4U.kt:149-155 | a chosen section wins and throws, the only section being the placeholder; else a chosen genre in the table gives its name lowercased; neither chosen throws the "choose" message |
| A4U.SearchUrl | src/ar/a4u/src/eu/kanade/tachiyomi/animeextension/ar/a4u/A4U.kt:141-159 | a non-blank query searches "/page/<n>?s=<query>"; a blank one throws when the sheet lacks a select, and otherwise lists the segment the first section and genre selects choose |
| A4U.Listing | src/ar/a4u/src/eu/kanade/tachiyomi/animeextension/ar/a4u/A4U.kt:148-158 | a chosen segment is listed under the site root; a failure choosing it is the request's failure |
| A4U.ListingPathEnds | src/ar/a4u/src/eu/kanade/tachiyomi/animeextension/ar/a4u/A4U.kt:156-157 | every listing path ends with "page/<n>" |
| A4U.ChosenSelects | src/ar/a4u/src/eu/kanade/tachiyomi/animeextension/ar/a4u/A4U.kt:141-159 | on any sheet with a blank query: a chosen first section throws, neither chosen asks to choose, a chosen genre lists its lowercased name |
| A4U.MissingSelectThrows | src/ar/a4u/src/eu/kanade/tachiyomi/animeextension/ar/a4u/A4U.kt:145-146 | a non-empty sheet without a section select or without a genre select throws on the cast |
| A4U.AppSheet | src/ar/a4u/src/eu/kanade/tachiyomi/animeextension/ar/a4u/A4U.kt:141-173 | on the five-filter sheet the app builds, with any states: a section throws, else a genre in the table lists its lowercased name, else the user is asked to choose |
| A4U.PushOntoRoot | src/ar/a4u/src/eu/kanade/tachiyomi/animeextension/ar/a4u/A4U.kt:148-157 | the first push replaces the root's empty segment and later non-empty pushes stack |
| A4U.ListingPathOf | src/ar/a4u/src/eu/kanade/tachiyomi/animeextension/ar/a4u/A4U.kt:148-158 | a non-empty segment lists "/<segment>/page/<n>" |
| A4U.EmptySegmentVanishes | src/ar/a4u/src/eu/kanade/tachiyomi/animeextension/ar/a4u/A4U.kt:148-158 | an empty segment is replaced by "page": the listing is "/page/<n>" |
| A4U.NothingChosenThrows | src/ar/a4u/src/eu/kanade/tachiyomi/animeextension/ar/a4u/A4U.kt:141-160 | the untouched sheet, or an empty filter list, asks the user to choose |
| A4U.TwoFilterSheet | src/ar/a4u/src/eu/kanade/tachiyomi/animeextension/ar/a4u/A4U.kt:141-160 | a sheet of one section and one genre select lists what the two choose |
| A4U.AnySectionThrows | src/ar/a4u/src/eu/kanade/tachiyomi/animeextension/ar/a4u/A4U.kt:175-187 | the only section is the placeholder, so choosing any other throws |
| A4U.PlaceholderSortsLast | src/ar/a4u/src/eu/kanade/tachiyomi/animeextension/ar/a4u/A4U.kt:175-187 | after sorting, the "choose" placeholder is the last genre, and choosing it lists a genre named after it |
| A4U.EmptyGenreListing | src/ar/a4u/src/eu/kanade/tachiyomi/animeextension/ar/a4u/A4U.kt:175-187 | the empty genres that sort first list "/page/<n>" |
| A4U.LatestTitleReadBack | src/ar/a4u/src/eu/kanade/tachiyomi/animeextension/ar/a4u/A4U.kt:207 | an episode title without "(" reads back after the title's last "(" |
| AnimeBlkom.Sort | src/ar/animeblkom/src/eu/kanade/tachiyomi/animeextension/ar/animeblkom/AnimeBlkom.kt:96-112 | no stored quality leaves the list as it is; a stored one runs the insertion loop on label containment |
| AnimeBlkom.SortPreferredFirst | src/ar/animeblkom/src/eu/kanade/tachiyomi/animeextension/ar/animeblkom/AnimeBlkom.kt:96-112 | the insertion loop only reorders, puts every matching video first and keeps each group in input order |
| AnimeBlkom.VideoFromElement | src/ar/animeblkom/src/eu/kanade/tachiyomi/animeextension/ar/animeblkom/AnimeBlkom.kt:91-94 | both addresses are the download link, and the quality is the resolution followed by "p" |
| AnimeBlkom.VideoList | src/ar/animeblkom/src/eu/kanade/tachiyomi/animeextension/ar/animeblkom/AnimeBlkom.kt:79-94 | one video per `source` of the player page, in document order |
| AnimeBlkom.WatchBecomesDownload | src/ar/animeblkom/src/eu/kanade/tachiyomi/animeextension/ar/animeblkom/AnimeBlkom.kt:93 | a link "<a>watch<b>" downloads from "<a>download<b>" |
| AnimeBlkom.NoWatchKept | src/ar/animeblkom/src/eu/kanade/tachiyomi/animeextension/ar/animeblkom/AnimeBlkom.kt:93 | a link without "watch" is kept |
| AnimeBlkom.PosterTitle | src/ar/animeblkom/src/eu/kanade/tachiyomi/animeextension/ar/animeblkom/AnimeBlkom.kt:57 | only a leading " poster" is removed: a trailing one stays in the title |
| AnimeBlkom.ThumbnailReadBack | src/ar/animeblkom/src/eu/kanade/tachiyomi/animeextension/ar/animeblkom/AnimeBlkom.kt:55 | the thumbnail starts with the site address, and the attribute reads back after it |
| AnimeBlkom.EpisodeFromElement | src/ar/animeblkom/src/eu/kanade/tachiyomi/animeextension/ar/animeblkom/AnimeBlkom.kt:67-75 | the episode reads exactly when the third span without " - " is a number; its name is "<third> :<first>" |
| AnimeBlkom.EpisodeList | src/ar/animeblkom/src/eu/kanade/tachiyomi/animeextension/ar/animeblkom/AnimeBlkom.kt:65-75 | the list reads exactly when every link reads, with one episode per link in page order |
| AnimeBlkom.DashedNumber | src/ar/animeblkom/src/eu/kanade/tachiyomi/animeextension/ar/animeblkom/AnimeBlkom.kt:70 | a third span " - <n>" is episode n |
| AnimeBlkom.WordThrows | src/ar/animeblkom/src/eu/kanade/tachiyomi/animeextension/ar/animeblkom/AnimeBlkom.kt:70 | a third span that is no number throws |
| AnimeBlkom.EpisodeNameReadBack | src/ar/animeblkom/src/eu/kanade/tachiyomi/animeextension/ar/animeblkom/AnimeBlkom.kt:71 | the name reads back: the third span before the first ":", the first span after it |
| AnimeBlkom.StatusOf | src/ar/animeblkom/src/eu/kanade/tachiyomi/animeextension/ar/animeblkom/AnimeBlkom.kt:141-147 | "مستمر" gives ONGOING, else "مكتمل" COMPLETED, else UNKNOWN |
| AnimeBlkom.OngoingBeatsCompleted | src/ar/animeblkom/src/eu/kanade/tachiyomi/animeextension/ar/animeblkom/AnimeBlkom.kt:141-147 | info text saying both is ongoing |
| AnimeBlkom.SearchQueryReadBack | src/ar/animeblkom/src/eu/kanade/tachiyomi/animeextension/ar/animeblkom/AnimeBlkom.kt:130 | a query without "&" reads back between "?query=" and the next "&" |

## Left out

- HTTP: requests, headers, OkHttp clients and their failures are not modelled. A fetched body or page is a parameter, and a failed fetch is `None` or a `Failure`.
- HTML: Jsoup selection, `attr`, `text()` and `absUrl` are not modelled. The strings and lists they would select are parameters.
- `setUrlWithoutDomain`: URLs are kept whole, because stripping the domain is an OkHttp parsing step.
- JSON decoding (kotlinx serialization) is not modelled. A4U's quality maps and AnimeFlv's server list are taken as already decoded.
- Base64 decoding in A4U and AskTv is a parameter, because it is a library call.
- JsUnpacker, used by AskTv and the StreamWish extractor, is not modelled; its output is a parameter.
- Date parsing with `SimpleDateFormat` (MangaRawClub, Mintmanga) is not modelled. The model ends at the normalised date text, because the parse depends on locale and time zone.
- KotlinText.ToFloat: floats are kept as the text the source converts. Only ASCII digits with at most one point are read; Java's parser also accepts a sign, an exponent, an `f`/`d` suffix, surrounding blanks, "NaN" and "Infinity", which the model reports as failures. Floating-point rounding is not modelled. Digit-only texts, as `filter { isDigit() }` produces, are read exactly.
- KotlinText.IsDigit: the digit table lists the decimal-digit blocks of the Basic Multilingual Plane, which is what `Char.isDigit` sees on UTF-16 units; a digit outside that plane is two surrogate units to Kotlin, neither a digit, and is one non-digit character here, so the filtered text agrees while its length does not.
- ArabLionz.Label / Mintmanga.ChapterName / Mintmanga.ChapterFromElement: lengths (`|quality| > 15` in ArabLionz.Label, `|mangaTitle| > 25` before the title words are stripped) count Unicode scalar values, where Kotlin's `length` counts UTF-16 units; the two differ only for characters outside the Basic Multilingual Plane, each of which Kotlin counts twice.
- KotlinText.Capitalize: only ASCII letters are upper-cased, and `Lowercase` lowers only ASCII and Russian Cyrillic letters, where Kotlin's `uppercase()`/`lowercase()` cover all of Unicode and may change the length. The plugins apply them only to host names captured from URLs and to their constant genre tables.
- Regular expressions are inputs: whether they matched and the captured group. This covers Shahid4U's VIDBOM/UQLOAD/STREAMWISH routing, ArabLionz's season and VidBom host patterns, and Mintmanga's reader-script pattern, because their lazy-regex semantics are outside the model.
- ArabLionz.PopularAnimeParse: the excluding regex of `popularAnimeParse` is modelled as containment of any of its three phrases, since it has no other regex feature.
- `titleEdit`/`editTitle` in Shahid4U, Tuktuk, Cimalek and EgyDead are not modelled, because they are regex-driven; titles are used as given.
- Extractors other than VidBom and UQLoad are not modelled: OK.ru, Dood, MixDrop, StreamWish, StreamSB, Fembed, StreamTape, Dailymotion, Mp4Upload and the AskTv estream and Pro HD players. Their results are parameters.
- Concurrency: `parallelMap` and `parallelCatchingFlatMapBlocking` are modelled as a sequential flat-map in which a failing element adds nothing. Interleavings are not modelled.
- Cimalek.VideoList: the `index++` shared by the parallel servers is modelled as the server's position plus one. Another thread order could number the servers differently.
- Cimalek.EpisodeList: the final `sortedBy { episode_number }` is not modelled, because it orders by float. A `toFloat` failure part-way through a season, which keeps that season's earlier episodes, is not modelled either.
- EgyDead.EpisodeList: the `hops` bound limits the breadcrumb and season recursion. When it runs out, the result is `Failure("StackOverflowError")`, which stands for the unbounded recursion of the source.
- EgyDead.AddEpisodes: bounded by the same `hops` fuel as EgyDead.EpisodeList.
- EgyDead.AnimeStatus: the title is read as given, because `editTitle` is left out.
- AskTv.EpisodeList: it has no contract of its own; the loop AskTv.EpisodeListParse states the result, including the fallback episode.
- A4U: episode numbers use `toFloatOrNull` with 0 as the fallback. The number is kept as text.
- Mintmanga: the rating stars and `rating * 2`, `chapter_number = data-num / 10`, the `DecimalFormat` and `prepareNewChapter` are not modelled, because they are floating point or sit outside the file.
- Cimalek: the random `rand` query value and the player request are not modelled, because they use `Math.random` and the network.
- AnimeBlkom: `date_upload` (the clock) and the `Log` call are not modelled.
- Popular and latest requests of AskTv, MangaRawClub (including its POST form body), A4U and AnimeBlkom are not modelled, because they are fixed URL templates around the page number.
- Search text is not percent-encoded by the model where the source puts it into a string template, which every plugin's text-search URL does (MangaRawClub, XsAnime, Shahid4U, Tuktuk, AnimeFlv, Cimalek, EgyDead, AsianLoad, AskTv, A4U, AnimeBlkom). OkHttp may canonicalise such URLs later, which is outside the model.
- AsianLoad.SearchUrl: the `toHttpUrlOrNull()!!` re-parse of the type listing URL (AsianLoad.kt:213) is not modelled. The type table's paths are plain ASCII and the page is a number, so that parse renders the URL back unchanged.
- XsAnime: the preferred-server selector and the iframe fetch are not modelled; the fetched sources are a parameter.
- Shahid4U: the season list is fetched by a POST request, whose result is a parameter.
- Details pages: fields other than the modelled status, title, thumbnail, author, description and genres are not modelled.
- HttpUrl.PushSegment: OkHttp's handling of "." and ".." segments, which are dropped or pop the previous segment, is not modelled. The plugins push only page numbers and names from their constant tables.
- Preferences: the settings screens and toasts are not modelled. Stored preference values are parameters.
- The WebView `GetSourcesInterceptor` classes are not part of this model, because they are Android UI and concurrency.
