/**
 * Mintmanga: list offsets, the advanced-search request, the status and age
 * classifiers, the chapter-row clean-up and the reader-page URL assembly.
 */
module Mintmanga {
  import opened Wrappers
  import opened KotlinText
  import opened Media
  import opened HttpUrl

  const BASE_URL: string := "https://mintmanga.live"

  // ---------------------------------------------------------------------
  // Popular and latest lists
  // ---------------------------------------------------------------------

  /** `70 * (page - 1)` evaluated in 32-bit `Int` arithmetic. */
  function ListOffset(page: int): (r: int)
    ensures INT_MIN <= r <= INT_MAX
    ensures (r - 70 * (page - 1)) % 0x1_0000_0000 == 0
  {
    WrapInt(70 * (page - 1))
  }

  /** `"$baseUrl/list?sortType=$sortType&offset=${70 * (page - 1)}"` */
  function ListUrl(sortType: string, page: int): string
  {
    BASE_URL + "/list?sortType=" + sortType + "&offset=" + IntToString(ListOffset(page))
  }

  function PopularRequest(page: int): string
  {
    ListUrl("rate", page)
  }

  function LatestRequest(page: int): string
  {
    ListUrl("updated", page)
  }

  /** Page 1 starts at offset 0. */
  lemma FirstPageOffset()
    ensures ListOffset(1) == 0
    ensures PopularRequest(1) == BASE_URL + "/list?sortType=rate&offset=0"
  {
    assert IntToString(0) == "0";
  }

  /**
   * Consecutive pages are 70 apart modulo 2^32, and exactly 70 apart while
   * the offsets fit in an `Int`.
   */
  lemma NextPageOffset(page: int)
    ensures (ListOffset(page + 1) - ListOffset(page) - 70) % 0x1_0000_0000 == 0
    ensures INT_MIN <= 70 * (page - 1) && 70 * page <= INT_MAX ==> ListOffset(page + 1) == ListOffset(page) + 70
  {
    var m := 0x1_0000_0000;
    var a := ListOffset(page + 1) - 70 * page;
    var b := ListOffset(page) - 70 * (page - 1);
    assert a % m == 0 && b % m == 0;
    assert a == (a / m) * m;
    assert b == (b / m) * m;
    var d := a / m - b / m;
    assert ListOffset(page + 1) - ListOffset(page) - 70 == d * m;
  }

  // ---------------------------------------------------------------------
  // Advanced search
  // ---------------------------------------------------------------------

  datatype TriState = Ignore | Include | Exclude

  /** A tri-state entry of a filter group: the site's id and the chosen state. */
  datatype TriEntry = TriEntry(id: string, state: TriState)

  /** A filter group (genres, categories, ages, "more", filters) or the ordering select. */
  datatype Filter = Group(entries: seq<TriEntry>) | OrderBy(state: nat)

  /** `arrayOf("=", "=in", "=ex")[state]` */
  function TriValue(st: TriState): string
  {
    match st
    case Ignore => "="
    case Include => "=in"
    case Exclude => "=ex"
  }

  const ORDER_TYPES: seq<string> := ["not", "year", "rate", "popularity", "votes", "created", "updated"]

  const CATEGORY_IDS: seq<string> := ["el_2741", "el_1903", "el_2173", "el_1873", "el_1875", "el_5688"]
  const GENRE_IDS: seq<string> := [
    "el_2220", "el_1353", "el_1346", "el_1334", "el_1339", "el_1333", "el_1347", "el_1337", "el_1343",
    "el_1349", "el_1332", "el_1310", "el_5229", "el_1311", "el_1351", "el_1328", "el_1318", "el_1325",
    "el_5676", "el_1327", "el_1342", "el_1322", "el_1335", "el_1313", "el_1316", "el_1350", "el_1314",
    "el_1320", "el_1326", "el_1330", "el_1321", "el_1329", "el_1344", "el_1341", "el_1317", "el_1323",
    "el_1319", "el_1340", "el_1354", "el_1315", "el_1336"]
  const AGE_IDS: seq<string> := ["el_3968", "el_3969", "el_3990"]
  const MORE_IDS: seq<string> := ["el_4614", "el_1355", "el_5232", "el_1874", "el_1348"]
  const FIL_IDS: seq<string> := ["s_high_rate", "s_single", "s_mature", "s_completed", "s_translated", "s_many_chapters", "s_wait_upload"]

  function Ignored(ids: seq<string>): (r: seq<TriEntry>)
    ensures |r| == |ids|
    ensures forall k :: 0 <= k < |ids| ==> r[k] == TriEntry(ids[k], Ignore)
  {
    seq(|ids|, k requires 0 <= k < |ids| => TriEntry(ids[k], Ignore))
  }

  /** `getFilterList()`: no ordering and every entry ignored. */
  function DefaultFilters(): seq<Filter>
  {
    [OrderBy(0), Group(Ignored(CATEGORY_IDS)), Group(Ignored(GENRE_IDS)), Group(Ignored(AGE_IDS)),
     Group(Ignored(MORE_IDS)), Group(Ignored(FIL_IDS))]
  }

  /** The query parameter an entry adds: none when ignored. */
  function EntryParam(e: TriEntry): seq<(string, string)>
  {
    if e.state == Ignore then [] else [(e.id, TriValue(e.state))]
  }

  function EntryParams(es: seq<TriEntry>): seq<(string, string)>
  {
    if |es| == 0 then [] else EntryParams(es[..|es| - 1]) + EntryParam(es[|es| - 1])
  }

  function FilterParams(fs: seq<Filter>): seq<(string, string)>
  {
    if |fs| == 0 then []
    else
      FilterParams(fs[..|fs| - 1]) + match fs[|fs| - 1] {
        case Group(entries) => EntryParams(entries)
        case OrderBy(_) => []
      }
  }

  /** An ordering select set to something other than "no ordering". */
  predicate Orders(f: Filter)
  {
    f.OrderBy? && f.state > 0
  }

  /** The first ordering filter at or after `i`. */
  function FirstOrdering(fs: seq<Filter>, i: nat): (r: Option<nat>)
    requires i <= |fs|
    ensures r.Some? ==> i <= r.value < |fs| && Orders(fs[r.value])
    ensures forall k :: i <= k < |fs| && (r.None? || k < r.value) ==> !Orders(fs[k])
    decreases |fs| - i
  {
    if i == |fs| then None
    else if Orders(fs[i]) then Some(i)
    else FirstOrdering(fs, i + 1)
  }

  /** The list URL for an ordering state; the table has seven entries. */
  function OrderUrl(state: nat, page: int): Result<string>
  {
    if state < |ORDER_TYPES| then Success(ListUrl(ORDER_TYPES[state], page))
    else Failure("ArrayIndexOutOfBoundsException")
  }

  function QueryParam(query: string): seq<(string, string)>
  {
    if |query| > 0 then [("q", query)] else []
  }

  const SEARCH_PATH: seq<string> := ["search", "advanced"]

  /** The URL requested for a filter sheet `fs`. */
  function SearchWith(page: int, query: string, fs: seq<Filter>): Result<string>
  {
    match FirstOrdering(fs, 0)
    case Some(k) => OrderUrl(fs[k].state, page)
    case None =>
      Success(Replace(Render(BASE_URL, SEARCH_PATH, FilterParams(fs) + QueryParam(query)), "=%3D", "="))
  }

  /** The URL `searchMangaRequest` requests: an empty filter list stands for the default sheet. */
  function SearchUrl(page: int, query: string, filters: seq<Filter>): Result<string>
  {
    SearchWith(page, query, if |filters| == 0 then DefaultFilters() else filters)
  }

  /**
   * `searchMangaRequest`: walks the filters, adding a query parameter per
   * non-ignored entry, and returns the list URL at the first ordering select
   * set above 0.
   */
  method SearchMangaRequest(page: int, query: string, filters: seq<Filter>) returns (r: Result<string>)
    ensures r == SearchUrl(page, query, filters)
  {
    var fs := if |filters| == 0 then DefaultFilters() else filters;
    r := SearchSheet(page, query, fs);
  }

  /** The walk over one filter sheet. */
  method SearchSheet(page: int, query: string, fs: seq<Filter>) returns (r: Result<string>)
    ensures r == SearchWith(page, query, fs)
  {
    var url := new UrlBuilder(BASE_URL, SEARCH_PATH);
    var i := 0;
    while i < |fs|
      invariant 0 <= i <= |fs|
      invariant url.origin == BASE_URL && url.segments == SEARCH_PATH
      invariant url.query == FilterParams(fs[..i])
      invariant forall k :: 0 <= k < i ==> !Orders(fs[k])
    {
      assert fs[..i + 1][..i] == fs[..i];
      match fs[i] {
        case Group(entries) =>
          AddEntries(url, entries);
        case OrderBy(state) =>
          if state > 0 {
            r := OrderUrl(state, page);
            assert FirstOrdering(fs, 0) == Some(i);
            return;
          }
      }
      i := i + 1;
    }
    assert fs[..i] == fs;
    if |query| > 0 {
      url.AddQueryParameter("q", query);
    }
    assert FirstOrdering(fs, 0) == None;
    assert url.query == FilterParams(fs) + QueryParam(query);
    r := Success(Replace(url.ToString(), "=%3D", "="));
  }

  /** One filter group: a parameter per entry that is not ignored, in entry order. */
  method AddEntries(url: UrlBuilder, entries: seq<TriEntry>)
    modifies url
    ensures url.query == old(url.query) + EntryParams(entries)
    ensures url.segments == old(url.segments)
  {
    var j := 0;
    while j < |entries|
      invariant 0 <= j <= |entries|
      invariant url.segments == old(url.segments)
      invariant url.query == old(url.query) + EntryParams(entries[..j])
    {
      assert entries[..j + 1][..j] == entries[..j];
      var e := entries[j];
      if e.state != Ignore {
        url.AddQueryParameter(e.id, TriValue(e.state));
      }
      j := j + 1;
    }
    assert entries[..j] == entries;
  }

  lemma {:induction false} EntryParamsAppend(a: seq<TriEntry>, b: seq<TriEntry>)
    ensures EntryParams(a + b) == EntryParams(a) + EntryParams(b)
    decreases |b|
  {
    if |b| == 0 {
      assert a + b == a;
    } else {
      assert (a + b)[..|a + b| - 1] == a + b[..|b| - 1];
      EntryParamsAppend(a, b[..|b| - 1]);
    }
  }

  /** Each entry adds its own parameter in place, and an ignored entry adds none. */
  lemma {:induction false} EntryInPlace(before: seq<TriEntry>, e: TriEntry, after: seq<TriEntry>)
    ensures EntryParams(before + [e] + after) == EntryParams(before) + EntryParam(e) + EntryParams(after)
  {
    var one := [e];
    EntryParamsAppend(before + one, after);
    EntryParamsAppend(before, one);
    assert one[..0] == [];
  }

  lemma {:induction false} IgnoredAddNothing(es: seq<TriEntry>)
    requires forall k :: 0 <= k < |es| ==> es[k].state == Ignore
    ensures EntryParams(es) == []
  {
    if |es| > 0 {
      IgnoredAddNothing(es[..|es| - 1]);
    }
  }

  /** A filter that adds no parameter: an ordering select, or a group whose entries are all ignored. */
  predicate Silent(f: Filter)
  {
    f.OrderBy? || forall k :: 0 <= k < |f.entries| ==> f.entries[k].state == Ignore
  }

  lemma {:induction false} SilentAddNothing(fs: seq<Filter>)
    requires forall k :: 0 <= k < |fs| ==> Silent(fs[k])
    ensures FilterParams(fs) == []
  {
    if |fs| > 0 {
      SilentAddNothing(fs[..|fs| - 1]);
      var f := fs[|fs| - 1];
      if f.Group? {
        IgnoredAddNothing(f.entries);
      }
    }
  }

  /** The filter sheet as it comes adds no parameter, so an empty search is the bare search page. */
  lemma DefaultSearch(page: int)
    ensures SearchUrl(page, "", []) == Success(BASE_URL + "/search/advanced")
  {
    DefaultSheetSilent();
    BareSearchPage();
  }

  lemma DefaultSheetSilent()
    ensures FirstOrdering(DefaultFilters(), 0) == None
    ensures FilterParams(DefaultFilters()) == []
  {
    var fs := DefaultFilters();
    assert forall k :: 1 <= k < |fs| ==> !Orders(fs[k]);
    SilentAddNothing(fs);
  }

  lemma BareSearchPage()
    ensures Replace(Render(BASE_URL, SEARCH_PATH, []), "=%3D", "=") == BASE_URL + "/search/advanced"
  {
    var s := BASE_URL + "/search/advanced";
    assert Join(SEARCH_PATH, "/") == "search/advanced";
    assert Render(BASE_URL, SEARCH_PATH, []) == s;
    NoFirstCharNoOccurrence(s, "=%3D");
  }

  /** An ordering above 0 decides the URL; the text query and the entries before it are not used. */
  lemma OrderingWins(page: int, q1: string, q2: string, fs: seq<Filter>, k: nat)
    requires |fs| > 0 && k < |fs| && Orders(fs[k])
    requires forall j :: 0 <= j < k ==> !Orders(fs[j])
    ensures SearchUrl(page, q1, fs) == SearchUrl(page, q2, fs) == OrderUrl(fs[k].state, page)
  {
    var r := FirstOrdering(fs, 0);
    assert r.Some?;
  }

  /** The ordering table's "rate" and "updated" entries are the popular and latest lists. */
  lemma OrderingsMatchLists(page: int)
    ensures OrderUrl(2, page) == Success(PopularRequest(page))
    ensures OrderUrl(6, page) == Success(LatestRequest(page))
  {
  }

  /** The characters of the site's filter ids. */
  predicate PlainId(id: string)
  {
    forall k :: 0 <= k < |id| ==> ('a' <= id[k] <= 'z') || ('0' <= id[k] <= '9') || id[k] == '_'
  }

  /** The builder escapes a leading `=` and keeps the plain characters after it. */
  lemma EncodedLeadingEquals(w: string)
    requires PlainId(w)
    ensures Encode("=" + w, true) == "%3D" + w
  {
    assert Utf8('=') == [61];
    assert PercentByte(61) == "%3D";
    assert EncodeChar('=', true) == "%3D";
    PlainIdEncodes(w);
    assert ("=" + w)[1..] == w;
  }

  /** A filter id is sent as it is. */
  lemma PlainIdEncodes(id: string)
    requires PlainId(id)
    ensures Encode(id, true) == id
  {
    forall k | 0 <= k < |id|
      ensures !Escapes(id[k], true)
    {
      var c := id[k];
      assert ('a' <= c <= 'z') || ('0' <= c <= '9') || c == '_';
    }
    EncodePlain(id, true);
  }

  /** One entry's parameter as rendered: the id, then the escaped `=`, then the value. */
  lemma EntryPair(id: string, w: string)
    requires PlainId(id) && PlainId(w)
    ensures QueryPairs([(id, "=" + w)]) == [id + "=%3D" + w]
  {
    PlainIdEncodes(id);
    EncodedLeadingEquals(w);
    var e: string := "=";
    assert e + "%3D" == "=%3D";
    assert QueryPair((id, "=" + w)) == id + e + ("%3D" + w);
    assert id + e + ("%3D" + w) == id + (e + "%3D") + w;
    assert [(id, "=" + w)][1..] == [];
  }

  /** The search path rendered after the site's origin. */
  lemma SearchHead()
    ensures BASE_URL + "/" + Join(SEARCH_PATH, "/") + "?" == BASE_URL + "/search/advanced?"
  {
    var j := Join(SEARCH_PATH, "/");
    assert j == "search/advanced";
    assert BASE_URL + "/" + j + "?" == BASE_URL + ("/" + j + "?");
    assert "/" + j + "?" == "/search/advanced?";
  }

  lemma RenderedEntry(id: string, w: string)
    requires PlainId(id) && PlainId(w)
    ensures Render(BASE_URL, SEARCH_PATH, [(id, "=" + w)]) == BASE_URL + "/search/advanced?" + id + "=%3D" + w
  {
    var pair := id + "=%3D" + w;
    EntryPair(id, w);
    assert Join([pair], "&") == pair;
    var origin := BASE_URL + "/" + Join(SEARCH_PATH, "/");
    assert Render(BASE_URL, SEARCH_PATH, [(id, "=" + w)]) == origin + ("?" + pair);
    assert origin + ("?" + pair) == origin + "?" + pair;
    SearchHead();
    assert pair == id + "=%3D" + w;
    assert origin + "?" + (id + "=%3D" + w) == origin + "?" + id + "=%3D" + w;
  }

  /** The final replacement collapses `=%3D` back to `=`. */
  lemma CollapseEscapedEquals(a: string, w: string)
    requires '=' !in a && '=' !in w
    ensures Replace(a + "=%3D" + w, "=%3D", "=") == a + "=" + w
  {
    FirstAtEndFirstChar(a, "=%3D");
    FirstOccurrence(a, "=%3D", w);
    NoFirstCharNoOccurrence(w, "=%3D");
    var s := a + "=%3D" + w;
    assert s[|a| + 4..] == w;
  }

  /**
   * The final replacement undoes the escaping of the value's leading `=`:
   * one included entry gives `…/search/advanced?<id>=in`, one excluded
   * entry `…/search/advanced?<id>=ex`.
   */
  lemma SingleEntryUrl(page: int, id: string, st: TriState)
    requires PlainId(id) && st != Ignore
    ensures SearchUrl(page, "", [Group([TriEntry(id, st)])]) == Success(BASE_URL + "/search/advanced?" + id + TriValue(st))
  {
    var w := if st == Include then "in" else "ex";
    assert TriValue(st) == "=" + w;
    CollapsedEntry(id, w);
    SingleEntrySearch(page, id, st);
  }

  /** One parameter `id` = `=w`, rendered and collapsed, reads `…/search/advanced?id=w`. */
  lemma CollapsedEntry(id: string, w: string)
    requires PlainId(id) && PlainId(w)
    ensures Replace(Render(BASE_URL, SEARCH_PATH, [(id, "=" + w)]), "=%3D", "=") == BASE_URL + "/search/advanced?" + id + ("=" + w)
  {
    var a := BASE_URL + "/search/advanced?" + id;
    RenderedEntry(id, w);
    PlainUrlHasNoEquals(id);
    assert '=' !in w;
    CollapseEscapedEquals(a, w);
    assert a + "=" + w == a + ("=" + w);
  }

  lemma SingleEntrySearch(page: int, id: string, st: TriState)
    requires st != Ignore
    ensures SearchUrl(page, "", [Group([TriEntry(id, st)])])
      == Success(Replace(Render(BASE_URL, SEARCH_PATH, [(id, TriValue(st))]), "=%3D", "="))
  {
    var fs := [Group([TriEntry(id, st)])];
    assert SearchUrl(page, "", fs) == SearchWith(page, "", fs);
    assert FirstOrdering(fs, 0) == None;
    SingleEntryParams(id, st);
    assert FilterParams(fs) + QueryParam("") == [(id, TriValue(st))];
  }

  lemma SingleEntryParams(id: string, st: TriState)
    requires st != Ignore
    ensures FilterParams([Group([TriEntry(id, st)])]) == [(id, TriValue(st))]
  {
    var fs := [Group([TriEntry(id, st)])];
    var es := [TriEntry(id, st)];
    assert es[..0] == [];
    assert EntryParams(es) == [(id, TriValue(st))];
    assert fs[..0] == [];
  }

  lemma PlainUrlHasNoEquals(id: string)
    requires PlainId(id)
    ensures '=' !in BASE_URL + "/search/advanced?" + id
  {
    var a := BASE_URL + "/search/advanced?";
    assert '=' !in a;
    forall k | 0 <= k < |id|
      ensures id[k] != '='
    {
    }
  }

  // ---------------------------------------------------------------------
  // Details: status and age
  // ---------------------------------------------------------------------

  const BANNED_COPYRIGHT: string := "Запрещена публикация произведения по копирайту"
  const BANNED_RF: string := "ЗАПРЕЩЕНА К ПУБЛИКАЦИИ НА ТЕРРИТОРИИ РФ!"
  const ONGOING_MARK: string := "<b>Перевод:</b> продолжается"
  const SINGLE_MARK: string := "<b>Сингл</b>"
  const FINISHED_MARK: string := "<b>Перевод:</b> завер"

  /** `parseStatus` over the info block's HTML. */
  function ParseStatus(html: string): (r: Status)
    ensures r == Licensed <==> Contains(html, BANNED_COPYRIGHT) || Contains(html, BANNED_RF)
    ensures r == Ongoing <==> !Contains(html, BANNED_COPYRIGHT) && !Contains(html, BANNED_RF) && Contains(html, ONGOING_MARK)
    ensures r == Completed <==>
      (!Contains(html, BANNED_COPYRIGHT) && !Contains(html, BANNED_RF) && !Contains(html, ONGOING_MARK)
       && (Contains(html, SINGLE_MARK) || Contains(html, FINISHED_MARK)))
  {
    if Contains(html, BANNED_COPYRIGHT) || Contains(html, BANNED_RF) then Licensed
    else if Contains(html, ONGOING_MARK) then Ongoing
    else if Contains(html, SINGLE_MARK) || Contains(html, FINISHED_MARK) then Completed
    else Unknown
  }

  /** A ban notice anywhere in the block makes the title licensed, whatever else the block says. */
  lemma BanNoticeWins(before: string, after: string)
    ensures ParseStatus(before + BANNED_RF + after) == Licensed
  {
    var s := before + BANNED_RF + after;
    assert s[|before|..|before| + |BANNED_RF|] == BANNED_RF;
    OccursAtContains(s, BANNED_RF, |before|);
  }

  /** The age-limit label: `NC-17` and `R18+` are adult, anything else (or nothing) is 16+. */
  function AgeLabel(raw: Option<string>): (r: string)
    ensures r == "18+" <==> raw == Some("NC-17") || raw == Some("R18+")
    ensures r == "18+" || r == "16+"
  {
    match raw
    case Some(v) => if v == "NC-17" then "18+" else if v == "R18+" then "18+" else "16+"
    case None => "16+"
  }

  // ---------------------------------------------------------------------
  // Chapter rows
  // ---------------------------------------------------------------------

  datatype Chapter = Chapter(url: string, name: string, scanlator: string)

  /** The translators: `(Переводчик),` separators become `&` and a final ` (Переводчик)` is dropped. */
  function Scanlator(titleAttr: string): (r: string)
    ensures IsBlank(titleAttr) ==> r == ""
  {
    if IsBlank(titleAttr) then ""
    else RemoveSuffix(Replace(titleAttr, "(Переводчик),", "&"), " (Переводчик)")
  }

  /** A title attribute without translator markers is taken as it is. */
  lemma PlainScanlator(titleAttr: string)
    requires !IsBlank(titleAttr) && '(' !in titleAttr
    ensures Scanlator(titleAttr) == titleAttr
  {
    NoFirstCharNoOccurrence(titleAttr, "(Переводчик),");
    var t := titleAttr;
    var m := " (Переводчик)";
    if EndsWith(t, m) {
      assert t[|t| - |m| + 1] == m[1];
    }
  }

  /** The first ASCII digit of a text (`findAnyOf("0", …, "9")`). */
  function FirstDigit(s: string): (r: Option<nat>)
    ensures r.Some? ==> r.value < |s| && '0' <= s[r.value] <= '9'
    ensures forall k :: 0 <= k < |s| && (r.None? || k < r.value) ==> !('0' <= s[k] <= '9')
  {
    if |s| == 0 then None
    else if '0' <= s[0] <= '9' then Some(0)
    else
      match FirstDigit(s[1..])
      case None => None
      case Some(k) => Some(k + 1)
  }

  /** Each title word in turn is removed from the front of the name, which is trimmed again. */
  function StripWords(name: string, words: seq<string>): string
  {
    if |words| == 0 then name
    else Trim(RemovePrefix(StripWords(name, words[..|words| - 1]), words[|words| - 1]))
  }

  /** The name is cut after `…` when the ellipsis comes before the first digit. */
  function CutAtEllipsis(name: string): string
  {
    var dots := IndexOf(name, "…");
    var numbers := FirstDigit(name).GetOr(0);
    if 0 <= dots < numbers then Trim(SubstringAfter(name, "…")) else name
  }

  /** The chapter name `chapterFromElement` derives from the link text and the manga title. */
  function ChapterName(urlText: string, mangaTitle: string): string
  {
    var words := if |mangaTitle| > 25 then Split(mangaTitle, " ") else [];
    CutAtEllipsis(StripWords(Trim(RemoveSuffix(urlText, " новое")), words))
  }

  /** The loop over the title's words, rewriting the name in place. */
  method StripTitleWords(start: string, words: seq<string>) returns (name: string)
    ensures name == StripWords(start, words)
  {
    name := start;
    for k := 0 to |words|
      invariant name == StripWords(start, words[..k])
    {
      assert words[..k + 1][..k] == words[..k];
      name := Trim(RemovePrefix(name, words[k]));
    }
    assert words[..|words|] == words;
  }

  /** `chapterFromElement`, the name rewritten step by step as the source does. */
  method ChapterFromElement(href: string, urlText: string, titleAttr: string, mangaTitle: string) returns (c: Chapter)
    ensures c.url == href + "?mtr=true"
    ensures c.scanlator == Scanlator(titleAttr)
    ensures c.name == ChapterName(urlText, mangaTitle)
    ensures Trim(c.name) == c.name
  {
    var start := Trim(RemoveSuffix(urlText, " новое"));
    var name := start;
    if |mangaTitle| > 25 {
      name := StripTitleWords(start, Split(mangaTitle, " "));
    }
    assert ChapterName(urlText, mangaTitle) == CutAtEllipsis(name);
    var dots := IndexOf(name, "…");
    var numbers := FirstDigit(name).GetOr(0);
    if 0 <= dots < numbers {
      name := Trim(SubstringAfter(name, "…"));
    }
    c := Chapter(href + "?mtr=true", name, Scanlator(titleAttr));
    ChapterNameTrimmed(urlText, mangaTitle);
  }

  lemma {:induction false} StripWordsTrimmed(name: string, words: seq<string>)
    requires Trim(name) == name
    ensures Trim(StripWords(name, words)) == StripWords(name, words)
  {
    if |words| > 0 {
      TrimIdempotent(RemovePrefix(StripWords(name, words[..|words| - 1]), words[|words| - 1]));
    }
  }

  /** The chapter name never starts or ends with whitespace. */
  lemma ChapterNameTrimmed(urlText: string, mangaTitle: string)
    ensures Trim(ChapterName(urlText, mangaTitle)) == ChapterName(urlText, mangaTitle)
  {
    var start := Trim(RemoveSuffix(urlText, " новое"));
    TrimIdempotent(RemoveSuffix(urlText, " новое"));
    var words := if |mangaTitle| > 25 then Split(mangaTitle, " ") else [];
    var stripped := StripWords(start, words);
    StripWordsTrimmed(start, words);
    CutTrimmed(stripped);
    assert ChapterName(urlText, mangaTitle) == CutAtEllipsis(stripped);
  }

  lemma CutTrimmed(name: string)
    requires Trim(name) == name
    ensures Trim(CutAtEllipsis(name)) == CutAtEllipsis(name)
  {
    TrimIdempotent(SubstringAfter(name, "…"));
  }

  /** A name without any ASCII digit keeps its ellipsis. */
  lemma NoDigitKeepsName(name: string)
    requires forall k :: 0 <= k < |name| ==> !('0' <= name[k] <= '9')
    ensures CutAtEllipsis(name) == name
  {
    assert FirstDigit(name).None?;
  }

  /** `<pre>…<rest>` with no digit in `pre` and a digit in `rest` is cut to the trimmed `rest`. */
  lemma EllipsisBeforeNumber(pre: string, rest: string, k: nat)
    requires '…' !in pre
    requires forall j :: 0 <= j < |pre| ==> !('0' <= pre[j] <= '9')
    requires k < |rest| && '0' <= rest[k] <= '9'
    ensures CutAtEllipsis(pre + "…" + rest) == Trim(rest)
  {
    var s := pre + "…" + rest;
    FirstAtEndChar(pre, '…');
    FirstOccurrence(pre, "…", rest);
    assert s[|pre| + 1 + k] == rest[k];
    forall j | 0 <= j <= |pre|
      ensures !('0' <= s[j] <= '9')
    {
      if j < |pre| {
        assert s[j] == pre[j];
      }
    }
    var d := FirstDigit(s);
    assert d.Some? && d.value > |pre|;
  }

  /** `<pre>…<rest>` with a digit in `pre` keeps the whole name. */
  lemma NumberBeforeEllipsis(pre: string, rest: string, k: nat)
    requires '…' !in pre
    requires k < |pre| && '0' <= pre[k] <= '9'
    ensures CutAtEllipsis(pre + "…" + rest) == pre + "…" + rest
  {
    var s := pre + "…" + rest;
    FirstAtEndChar(pre, '…');
    FirstOccurrence(pre, "…", rest);
    assert s[k] == pre[k];
    var d := FirstDigit(s);
    assert d.Some? && d.value <= k;
  }

  // ---------------------------------------------------------------------
  // Reader pages
  // ---------------------------------------------------------------------

  const READER_MARK: string := "rm_h.initReader( ["

  /** `html.substring(beginIndex, endIndex)`: throws when either marker is missing. */
  function ReaderRegion(html: string): (r: Result<string>)
    ensures r.Success? <==> Contains(html, READER_MARK) && IndexOfFrom(html, ");", IndexOf(html, READER_MARK)) >= 0
    ensures r.Success? ==> StartsWith(r.value, READER_MARK) && !Contains(r.value, ");")
  {
    var begin := IndexOf(html, READER_MARK);
    var end := IndexOfFrom(html, ");", if begin < 0 then 0 else begin);
    if begin < 0 || end < 0 then Failure("StringIndexOutOfBoundsException")
    else
      RegionShape(html, begin, end);
      Success(html[begin..end])
  }

  lemma RegionShape(html: string, begin: nat, end: int)
    requires OccursAt(html, READER_MARK, begin)
    requires end == IndexOfFrom(html, ");", begin) && end >= 0
    ensures begin + |READER_MARK| <= end
    ensures StartsWith(html[begin..end], READER_MARK)
    ensures !Contains(html[begin..end], ");")
  {
    var m := READER_MARK;
    forall j | begin <= j < begin + |m|
      ensures !OccursAt(html, ");", j)
    {
      assert html[j] == m[j - begin];
      assert j + 2 <= |html| ==> html[j..j + 2][0] == html[j];
    }
    var region := html[begin..end];
    forall j | 0 <= j < |region|
      ensures !OccursAt(region, ");", j)
    {
      assert !OccursAt(html, ");", begin + j);
      if j + 2 <= |region| {
        assert region[j..j + 2] == html[begin + j..begin + j + 2];
      }
    }
    assert !OccursAt(region, ");", IndexOf(region, ");"));
  }

  /** The match with its quotes removed (`replace("[\"']+".toRegex(), "")`). */
  function RemoveQuotes(s: string): (r: string)
    ensures '\"' !in r && '\'' !in r
  {
    if |s| == 0 then ""
    else (if s[0] == '\"' || s[0] == '\'' then "" else [s[0]]) + RemoveQuotes(s[1..])
  }

  /** The comma-separated fields of one `'…','…',"…"` match. */
  function PageParts(m: string): seq<string>
  {
    Split(RemoveQuotes(m), ",")
  }

  /** The image URL of one reader entry. */
  function PageUrl(parts: seq<string>): string
    requires |parts| >= 3
  {
    if parts[1] == "" && StartsWith(parts[2], "/static/") then BASE_URL + parts[2]
    else if EndsWith(parts[1], "/manga/") then parts[0] + parts[2]
    else parts[1] + parts[0] + parts[2]
  }

  /**
   * `pageListParse`: `find` gives the pattern's matches in a text, in order.
   * One page per match, numbered from 0; a match with fewer than three
   * fields throws.
   */
  method PageListParse(html: string, find: string -> seq<string>) returns (r: Result<seq<Page>>)
    ensures ReaderRegion(html).Failure? ==> r.Failure?
    ensures ReaderRegion(html).Success? ==>
      var ms := find(ReaderRegion(html).value);
      (r.Success? <==> forall k :: 0 <= k < |ms| ==> |PageParts(ms[k])| >= 3)
      && (r.Success? ==> |r.value| == |ms| && forall k :: 0 <= k < |ms| ==> r.value[k] == Page(k, "", PageUrl(PageParts(ms[k]))))
  {
    var region := ReaderRegion(html);
    if region.Failure? {
      return Failure(region.error);
    }
    r := ReadMatches(find(region.value));
  }

  /** The loop over the matches: one page per match, numbered from 0, until a match lacks a field. */
  method ReadMatches(ms: seq<string>) returns (r: Result<seq<Page>>)
    ensures r.Success? <==> forall k :: 0 <= k < |ms| ==> |PageParts(ms[k])| >= 3
    ensures r.Success? ==> |r.value| == |ms| && forall k :: 0 <= k < |ms| ==> r.value[k] == Page(k, "", PageUrl(PageParts(ms[k])))
  {
    var pages: seq<Page> := [];
    var i := 0;
    while i < |ms|
      invariant 0 <= i <= |ms| && |pages| == i
      invariant forall k :: 0 <= k < i ==> |PageParts(ms[k])| >= 3
      invariant forall k :: 0 <= k < i ==> pages[k] == Page(k, "", PageUrl(PageParts(ms[k])))
    {
      var urlParts := PageParts(ms[i]);
      if |urlParts| < 3 {
        return Failure("IndexOutOfBoundsException");
      }
      pages := pages + [Page(i, "", PageUrl(urlParts))];
      i := i + 1;
    }
    r := Success(pages);
  }

  lemma {:induction false} RemoveQuotesAppend(a: string, b: string)
    ensures RemoveQuotes(a + b) == RemoveQuotes(a) + RemoveQuotes(b)
  {
    if |a| > 0 {
      assert (a + b)[1..] == a[1..] + b;
      RemoveQuotesAppend(a[1..], b);
    } else {
      assert a + b == b;
    }
  }

  lemma {:induction false} RemoveQuotesPlain(s: string)
    requires '\"' !in s && '\'' !in s
    ensures RemoveQuotes(s) == s
  {
    if |s| > 0 {
      RemoveQuotesPlain(s[1..]);
      assert [s[0]] + s[1..] == s;
    }
  }

  lemma SeqAssoc(x: string, y: string, z: string)
    ensures x + (y + z) == x + y + z
  {
  }

  /** The quote characters of a match and the commas between its fields. */
  lemma QuoteLiterals()
    ensures RemoveQuotes("'") == "" && RemoveQuotes("\"") == ""
    ensures RemoveQuotes("','") == "," && RemoveQuotes("',\"") == ","
  {
    assert "','"[1..] == ",'";
    assert ",'"[1..] == "'";
    assert "',\""[1..] == ",\"";
    assert ",\""[1..] == "\"";
  }

  /** Removing the quotes of `'a','b',"c"` leaves `a,b,c`. */
  lemma MatchUnquoted(a: string, b: string, c: string)
    requires '\"' !in a && '\'' !in a
    requires '\"' !in b && '\'' !in b
    requires '\"' !in c && '\'' !in c
    ensures RemoveQuotes("'" + a + "','" + b + "',\"" + c + "\"") == a + "," + b + "," + c
  {
    QuoteLiterals();
    RemoveQuotesPlain(a);
    RemoveQuotesPlain(b);
    RemoveQuotesPlain(c);
    var p1 := "'" + a;
    RemoveQuotesAppend("'", a);
    assert RemoveQuotes(p1) == a;
    var p2 := p1 + "','";
    RemoveQuotesAppend(p1, "','");
    assert RemoveQuotes(p2) == a + ",";
    var p3 := p2 + b;
    RemoveQuotesAppend(p2, b);
    assert RemoveQuotes(p3) == a + "," + b;
    var p4 := p3 + "',\"";
    RemoveQuotesAppend(p3, "',\"");
    assert RemoveQuotes(p4) == a + "," + b + ",";
    var p5 := p4 + c;
    RemoveQuotesAppend(p4, c);
    assert RemoveQuotes(p5) == a + "," + b + "," + c;
    RemoveQuotesAppend(p5, "\"");
    assert RemoveQuotes(p5 + "\"") == a + "," + b + "," + c;
  }

  lemma JoinThree(a: string, b: string, c: string)
    ensures Join([a, b, c], ",") == a + "," + b + "," + c
  {
    assert Join([b, c], ",") == b + "," + c by {
      assert [b, c][1..] == [c];
    }
    assert [a, b, c][1..] == [b, c];
    assert Join([a, b, c], ",") == a + "," + (b + "," + c);
    SeqAssoc(a + ",", b + ",", c);
  }

  /** A match `'a','b',"c"` whose fields hold no quote or comma gives back exactly those three fields. */
  lemma MatchFields(a: string, b: string, c: string)
    requires '\"' !in a && '\'' !in a && ',' !in a
    requires '\"' !in b && '\'' !in b && ',' !in b
    requires '\"' !in c && '\'' !in c && ',' !in c
    ensures PageParts("'" + a + "','" + b + "',\"" + c + "\"") == [a, b, c]
  {
    MatchUnquoted(a, b, c);
    JoinThree(a, b, c);
    SplitJoin([a, b, c], ',');
  }

  /**
   * The URL of a match `'a','b',"c"` whose fields hold no quote or comma: a
   * `/static/` path with an empty host field is served by the site itself,
   * a host ending in `/manga/` is dropped in favour of the first field, and
   * otherwise host, first field and path are joined in that order.
   */
  lemma PageUrlOfMatch(a: string, b: string, c: string)
    requires '\"' !in a && '\'' !in a && ',' !in a
    requires '\"' !in b && '\'' !in b && ',' !in b
    requires '\"' !in c && '\'' !in c && ',' !in c
    ensures |PageParts("'" + a + "','" + b + "',\"" + c + "\"")| >= 3
    ensures PageUrl(PageParts("'" + a + "','" + b + "',\"" + c + "\"")) ==
      if b == "" && StartsWith(c, "/static/") then BASE_URL + c
      else if EndsWith(b, "/manga/") then a + c
      else b + a + c
  {
    MatchFields(a, b, c);
  }
}
