/**
 * Anime4Up: the stream links merged from the three quality maps, the
 * reversed episode list, the details text and status, the listing request
 * built from the filter sheet, and the latest-update title.
 */
module A4U {
  import opened Wrappers
  import opened KotlinText
  import opened Media
  import opened Prioritise
  import opened HttpUrl

  const BASE_URL: string := "https://anime4up.cam"
  const QUALITY_DEFAULT: string := "1080"

  // ---------------------------------------------------------------------
  // Quality maps
  // ---------------------------------------------------------------------

  /**
   * A decoded JSON object as the `LinkedHashMap` it becomes: its entries in
   * insertion order, each key once.
   */
  type Entries = seq<(string, string)>

  predicate DistinctKeys(m: Entries)
  {
    forall i, j :: 0 <= i < j < |m| ==> m[i].0 != m[j].0
  }

  function Keys(m: Entries): (r: seq<string>)
    ensures |r| == |m| && forall i :: 0 <= i < |m| ==> r[i] == m[i].0
  {
    if |m| == 0 then [] else [m[0].0] + Keys(m[1..])
  }

  function Values(m: Entries): (r: seq<string>)
    ensures |r| == |m| && forall i :: 0 <= i < |m| ==> r[i] == m[i].1
  {
    if |m| == 0 then [] else [m[0].1] + Values(m[1..])
  }

  /** `m[k]`: the value of the first entry with that key. */
  function Lookup(m: Entries, k: string): (r: Option<string>)
    ensures r.None? <==> k !in Keys(m)
  {
    if |m| == 0 then None else if m[0].0 == k then Some(m[0].1) else Lookup(m[1..], k)
  }

  /** `put(k, v)`: a present key keeps its place and takes the new value; a new key goes last. */
  function Put(m: Entries, k: string, v: string): Entries
  {
    if |m| == 0 then [(k, v)]
    else if m[0].0 == k then [(k, v)] + m[1..]
    else [m[0]] + Put(m[1..], k, v)
  }

  /** `a + b`: `a`'s entries, then `b`'s put one by one. */
  function Plus(a: Entries, b: Entries): Entries
    decreases |b|
  {
    if |b| == 0 then a else Plus(Put(a, b[0].0, b[0].1), b[1..])
  }

  lemma {:induction false} PutLookup(m: Entries, k: string, v: string, q: string)
    ensures Lookup(Put(m, k, v), q) == if q == k then Some(v) else Lookup(m, q)
  {
    if |m| > 0 && m[0].0 != k {
      PutLookup(m[1..], k, v, q);
      assert Put(m, k, v)[1..] == Put(m[1..], k, v);
    }
  }

  /** `put` keeps the existing keys in place and adds a new one at the end. */
  lemma {:induction false} PutKeys(m: Entries, k: string, v: string)
    ensures Keys(Put(m, k, v)) == if k in Keys(m) then Keys(m) else Keys(m) + [k]
  {
    if |m| > 0 && m[0].0 != k {
      PutKeys(m[1..], k, v);
      assert Put(m, k, v)[1..] == Put(m[1..], k, v);
      assert Keys(m) == [m[0].0] + Keys(m[1..]);
      assert k in Keys(m) <==> k in Keys(m[1..]);
    }
  }

  lemma PutDistinct(m: Entries, k: string, v: string)
    requires DistinctKeys(m)
    ensures DistinctKeys(Put(m, k, v))
  {
    PutKeys(m, k, v);
    var r := Put(m, k, v);
    forall i, j | 0 <= i < j < |r|
      ensures r[i].0 != r[j].0
    {
      assert Keys(r)[i] == r[i].0 && Keys(r)[j] == r[j].0;
      if j >= |m| {
        assert Keys(r)[j] == k && k !in Keys(m);
        assert Keys(r)[i] == Keys(m)[i];
      } else {
        assert Keys(r)[i] == Keys(m)[i] == m[i].0 && Keys(r)[j] == Keys(m)[j] == m[j].0;
      }
    }
  }

  /**
   * In `a + b` a key of `b` takes `b`'s value, the later map winning;
   * any other key keeps `a`'s.
   */
  lemma {:induction false} PlusLookup(a: Entries, b: Entries, q: string)
    requires DistinctKeys(b)
    ensures Lookup(Plus(a, b), q) == if q in Keys(b) then Lookup(b, q) else Lookup(a, q)
    decreases |b|
  {
    if |b| > 0 {
      var a' := Put(a, b[0].0, b[0].1);
      assert DistinctKeys(b[1..]);
      PlusLookup(a', b[1..], q);
      PutLookup(a, b[0].0, b[0].1, q);
      assert Keys(b) == [b[0].0] + Keys(b[1..]);
      if q == b[0].0 {
        assert q !in Keys(b[1..]);
      }
    }
  }

  /** `a`'s keys stay first and in their order in `a + b`, and every key is kept once. */
  lemma {:induction false} PlusKeys(a: Entries, b: Entries)
    requires DistinctKeys(a)
    ensures DistinctKeys(Plus(a, b))
    ensures |Plus(a, b)| >= |a| && Keys(Plus(a, b))[..|a|] == Keys(a)
    ensures forall q :: q in Keys(Plus(a, b)) <==> q in Keys(a) || q in Keys(b)
    decreases |b|
  {
    if |b| > 0 {
      var a' := Put(a, b[0].0, b[0].1);
      PutKeys(a, b[0].0, b[0].1);
      PutDistinct(a, b[0].0, b[0].1);
      PlusKeys(a', b[1..]);
      assert Keys(a')[..|a|] == Keys(a);
      assert Keys(Plus(a, b))[..|a|] == Keys(Plus(a, b))[..|a'|][..|a|];
      assert Keys(b) == [b[0].0] + Keys(b[1..]);
    }
  }

  /** `distinct()`: the first occurrence of each value, in order. */
  function Distinct(xs: seq<string>): (r: seq<string>)
    ensures forall x :: x in r <==> x in xs
    ensures forall i, j :: 0 <= i < j < |r| ==> r[i] != r[j]
  {
    if |xs| == 0 then []
    else
      var front := Distinct(xs[..|xs| - 1]);
      assert forall x :: x in xs <==> x in xs[..|xs| - 1] || x == xs[|xs| - 1];
      if xs[|xs| - 1] in front then front else front + [xs[|xs| - 1]]
  }

  /** The index of the first occurrence of `x`. */
  function FirstIndex(xs: seq<string>, x: string): (i: nat)
    requires x in xs
    ensures i < |xs| && xs[i] == x && x !in xs[..i]
  {
    if xs[0] == x then 0 else 1 + FirstIndex(xs[1..], x)
  }

  /** `distinct()` keeps the values in the order of their first occurrences. */
  lemma {:induction false} DistinctOrder(xs: seq<string>, i: nat, j: nat)
    requires i < j < |Distinct(xs)|
    ensures FirstIndex(xs, Distinct(xs)[i]) < FirstIndex(xs, Distinct(xs)[j])
  {
    var front := xs[..|xs| - 1];
    var r := Distinct(xs);
    var x, y := r[i], r[j];
    FirstIndexPrefix(xs, x);
    FirstIndexPrefix(xs, y);
    if j < |Distinct(front)| {
      DistinctOrder(front, i, j);
    } else {
      assert y == xs[|xs| - 1] && y !in front;
      assert x in front;
    }
  }

  /** A value already in the front keeps its first index when one more value is added. */
  lemma FirstIndexPrefix(xs: seq<string>, x: string)
    requires |xs| > 0 && x in xs
    ensures x in xs[..|xs| - 1] ==> FirstIndex(xs, x) == FirstIndex(xs[..|xs| - 1], x)
    ensures x !in xs[..|xs| - 1] ==> FirstIndex(xs, x) == |xs| - 1
  {
    var front := xs[..|xs| - 1];
    if x in front {
      var k := FirstIndex(front, x);
      assert xs[k] == x;
      assert front[..k] == xs[..k];
    }
  }

  /** The three quality maps of the decoded `wl` input. */
  datatype Qualities = Qualities(fhd: Entries, hd: Entries, sd: Entries)

  /** `fhd + hd + sd`. */
  function StreamLinks(q: Qualities): Entries
  {
    Plus(Plus(q.fhd, q.hd), q.sd)
  }

  /** `extractVideos`: a link is its own page, label and stream. */
  function LinkVideo(url: string): Video
  {
    Video(url, url, url)
  }

  /**
   * `videoListParse`: without the `wl` input no videos; otherwise one video
   * per distinct value of the merged map, in order.
   */
  function VideoList(wl: Option<Qualities>): seq<Video>
  {
    match wl
    case None => []
    case Some(q) =>
      var links := Distinct(Values(StreamLinks(q)));
      seq(|links|, k requires 0 <= k < |links| => LinkVideo(links[k]))
  }

  /**
   * Each video is a link that labels itself; no link appears twice; and a
   * link appears exactly when it is the value of some key of the merged map.
   */
  lemma VideoListLinks(q: Qualities)
    ensures var r := VideoList(Some(q));
      (forall k :: 0 <= k < |r| ==> r[k].url == r[k].quality == r[k].videoUrl)
      && (forall i, j :: 0 <= i < j < |r| ==> r[i].url != r[j].url)
      && (forall u :: (exists k :: 0 <= k < |r| && r[k].url == u) <==> u in Values(StreamLinks(q)))
  {
    var links := Distinct(Values(StreamLinks(q)));
    var r := VideoList(Some(q));
    forall u
      ensures (exists k :: 0 <= k < |r| && r[k].url == u) <==> u in Values(StreamLinks(q))
    {
      if u in links {
        var k :| 0 <= k < |links| && links[k] == u;
        assert r[k].url == u;
      }
    }
  }

  /** Without the `wl` input there is nothing to play. */
  lemma NoInputNoVideos()
    ensures VideoList(None) == []
  {
  }

  /**
   * A quality key present in several maps takes the last one's link: SD over
   * HD over FHD.
   */
  lemma LaterMapWins(q: Qualities, key: string)
    requires DistinctKeys(q.fhd) && DistinctKeys(q.hd) && DistinctKeys(q.sd)
    ensures Lookup(StreamLinks(q), key) ==
      if key in Keys(q.sd) then Lookup(q.sd, key)
      else if key in Keys(q.hd) then Lookup(q.hd, key)
      else Lookup(q.fhd, key)
  {
    PlusLookup(Plus(q.fhd, q.hd), q.sd, key);
    PlusLookup(q.fhd, q.hd, key);
  }

  /** FHD's keys come first in the merged map, in FHD's order, and no key is listed twice. */
  lemma FhdFirst(q: Qualities)
    requires DistinctKeys(q.fhd)
    ensures var m := StreamLinks(q);
      DistinctKeys(m) && |m| >= |q.fhd| && Keys(m)[..|q.fhd|] == Keys(q.fhd)
  {
    PlusKeys(q.fhd, q.hd);
    var ab := Plus(q.fhd, q.hd);
    PlusKeys(ab, q.sd);
    assert Keys(StreamLinks(q))[..|q.fhd|] == Keys(StreamLinks(q))[..|ab|][..|q.fhd|];
  }

  /** The same link under two qualities plays once, at the first quality's place. */
  lemma SharedLinkOnce(q: Qualities, i: nat, j: nat)
    requires i < j < |VideoList(Some(q))|
    ensures FirstIndex(Values(StreamLinks(q)), VideoList(Some(q))[i].url)
      < FirstIndex(Values(StreamLinks(q)), VideoList(Some(q))[j].url)
  {
    DistinctOrder(Values(StreamLinks(q)), i, j);
  }

  // ---------------------------------------------------------------------
  // Video order
  // ---------------------------------------------------------------------

  /** `List<Video>.sort()`: the stored preference, "1080" when none is stored. */
  function Sort(vs: seq<Video>, stored: Option<string>): seq<Video>
  {
    SortedThenReversed(vs, stored.GetOr(QUALITY_DEFAULT))
  }

  /**
   * The videos are only reordered, those whose quality contains the
   * preference come first, and each group is in reverse input order.
   */
  lemma SortMatchingFirst(vs: seq<Video>, stored: Option<string>)
    ensures var pref := stored.GetOr(QUALITY_DEFAULT);
      var r := Sort(vs, stored);
      multiset(r) == multiset(vs)
      && (forall i, j :: 0 <= i < j < |r| && Contains(r[j].quality, pref) ==> Contains(r[i].quality, pref))
      && r == Reverse(Keep(vs, Test(pref, Substring), true)) + Reverse(Keep(vs, Test(pref, Substring), false))
  {
    var pref := stored.GetOr(QUALITY_DEFAULT);
    SortedThenReversedPermutation(vs, pref);
    SortedThenReversedOrder(vs, pref);
    SortedThenReversedShape(vs, pref);
  }

  // ---------------------------------------------------------------------
  // Episodes
  // ---------------------------------------------------------------------

  /** One episode link: its `href` and its text. */
  datatype Link = Link(href: string, text: string)

  /** `episodeFromElement`: the number is the text's last word, 0 when it is not a number. */
  function EpisodeFromElement(l: Link): (e: Episode)
    ensures e.url == l.href && e.name == l.text && e.number.Some?
  {
    var word := SubstringAfterLast(l.text, " ");
    Episode(l.href, l.text, Some(match ToFloat(word) case Success(n) => n case Failure(_) => "0"))
  }

  /** `episodeListParse`: the page's links, last first. */
  function EpisodeList(links: seq<Link>): (r: seq<Episode>)
    ensures |r| == |links|
    ensures forall k :: 0 <= k < |links| ==> r[k] == EpisodeFromElement(links[|links| - 1 - k])
  {
    Reverse(seq(|links|, k requires 0 <= k < |links| => EpisodeFromElement(links[k])))
  }

  /** Reversing the list again gives the page order. */
  lemma PageOrder(links: seq<Link>)
    ensures var r := Reverse(EpisodeList(links));
      |r| == |links| && forall k :: 0 <= k < |links| ==> r[k] == EpisodeFromElement(links[k])
  {
    ReverseTwice(seq(|links|, k requires 0 <= k < |links| => EpisodeFromElement(links[k])));
  }

  /** A text ending in " <n>" is episode n. */
  lemma NumberedName(href: string, words: string, n: nat)
    ensures EpisodeFromElement(Link(href, words + " " + IntToString(n))).number == Some(IntToString(n))
  {
    NatTextAscii(n);
    assert ' ' !in IntToString(n);
    LastOccurrence(words, ' ', IntToString(n));
    assert words + " " + IntToString(n) == words + [' '] + IntToString(n);
    NatTextIsFloat(n);
  }

  /** A text whose last word is not a number is episode 0. */
  lemma UnnumberedName(href: string, words: string, last: string)
    requires ' ' !in last && exists i :: 0 <= i < |last| && !IsAsciiDigit(last[i]) && last[i] != '.'
    ensures EpisodeFromElement(Link(href, words + " " + last)).number == Some("0")
  {
    LastOccurrence(words, ' ', last);
    assert words + " " + last == words + [' '] + last;
  }

  // ---------------------------------------------------------------------
  // Details
  // ---------------------------------------------------------------------

  const ONGOING_MARK: string := "يعرض الان"
  const COMPLETED_MARK: string := "مكتمل"

  /**
   * The status from the "anime status" info line: "airing now" wins over
   * "completed"; without the line the status stays UNKNOWN.
   */
  function StatusOf(info: Option<string>): (r: Status)
    ensures r == Ongoing <==> info.Some? && Contains(info.value, ONGOING_MARK)
    ensures r == Completed <==> info.Some? && !Contains(info.value, ONGOING_MARK) && Contains(info.value, COMPLETED_MARK)
    ensures r == Unknown <==> info.None? || (!Contains(info.value, ONGOING_MARK) && !Contains(info.value, COMPLETED_MARK))
  {
    match info
    case None => Unknown
    case Some(t) => if Contains(t, ONGOING_MARK) then Ongoing else if Contains(t, COMPLETED_MARK) then Completed else Unknown
  }

  /** A line saying both is airing. */
  lemma AiringBeatsCompleted(a: string, b: string, c: string)
    ensures StatusOf(Some(a + ONGOING_MARK + b + COMPLETED_MARK + c)) == Ongoing
  {
    var t := a + ONGOING_MARK + b + COMPLETED_MARK + c;
    assert t[|a|..|a| + |ONGOING_MARK|] == ONGOING_MARK;
    OccursAtContains(t, ONGOING_MARK, |a|);
  }

  /** The info lines, each followed by a newline, then a newline and the story when there is one. */
  function Description(infos: seq<string>, story: Option<string>): string
  {
    if |infos| == 0 then (match story case None => "" case Some(s) => "\n" + s)
    else infos[0] + "\n" + Description(infos[1..], story)
  }

  /** The lines after the info lines: an empty one, then the story when there is one. */
  function StoryTail(story: Option<string>): seq<string>
  {
    match story
    case None => [""]
    case Some(s) => ["", s]
  }

  /** The built text is the info lines and the story tail joined with newlines. */
  lemma {:induction false} DescriptionJoin(infos: seq<string>, story: Option<string>)
    ensures Description(infos, story) == Join(infos + StoryTail(story), "\n")
  {
    if |infos| == 0 {
      assert infos + StoryTail(story) == StoryTail(story);
    } else {
      DescriptionJoin(infos[1..], story);
      assert infos + StoryTail(story) == [infos[0]] + (infos[1..] + StoryTail(story));
      JoinCons(infos[0], infos[1..] + StoryTail(story), "\n");
    }
  }

  /** Single-line info texts and story read back line by line, the story after an empty line. */
  lemma DescriptionLines(infos: seq<string>, story: Option<string>)
    requires forall k :: 0 <= k < |infos| ==> '\n' !in infos[k]
    requires story.Some? ==> '\n' !in story.value
    ensures Split(Description(infos, story), "\n") == infos + StoryTail(story)
  {
    var lines := infos + StoryTail(story);
    DescriptionJoin(infos, story);
    forall k | 0 <= k < |lines| - 1
      ensures FirstAtEnd(lines[k], "\n")
    {
      FirstAtEndChar(lines[k], '\n');
    }
    NoFirstCharNoOccurrence(lines[|lines| - 1], "\n");
    SplitOfJoin(lines, "\n");
  }

  /** `eachText().joinToString()`. */
  function Genres(texts: seq<string>): string
  {
    Join(texts, ", ")
  }

  // ---------------------------------------------------------------------
  // Search
  // ---------------------------------------------------------------------

  /** The section select: shown name, sent value. */
  const SECTION_VALS: seq<(string, string)> := [("اختر", "none")]

  /** The genre select's names after `sortedArray()`. */
  const GENRE_VALS: seq<string> := ["", "", "اختر"]

  const CHOOSE_MESSAGE: string := "من فضلك اختر قسم او تصنيف"
  const PAGE_SEGMENT: string := "page"

  datatype Filter = SectionFilter(state: nat) | GenreFilter(state: nat) | OtherFilter

  datatype Kind = Section | Genre

  predicate OfKind(f: Filter, kind: Kind)
  {
    match kind
    case Section => f.SectionFilter?
    case Genre => f.GenreFilter?
  }

  /** `filterList.find { it is … }`: the state of the first filter of that kind. */
  function FirstOf(fs: seq<Filter>, kind: Kind): (r: Option<nat>)
    ensures r.Some? <==> exists k :: 0 <= k < |fs| && OfKind(fs[k], kind)
    ensures r.Some? ==> exists k :: (0 <= k < |fs| && OfKind(fs[k], kind) && r.value == fs[k].state
      && forall j :: 0 <= j < k ==> !OfKind(fs[j], kind))
  {
    if |fs| == 0 then None
    else if OfKind(fs[0], kind) then Some(fs[0].state)
    else
      assert forall k :: 1 <= k < |fs| ==> fs[k] == fs[1..][k - 1];
      FirstOf(fs[1..], kind)
  }

  /** `getFilterList()`, used when the given list is empty. */
  function Sheet(filters: seq<Filter>): seq<Filter>
  {
    if |filters| == 0 then [OtherFilter, SectionFilter(0), OtherFilter, OtherFilter, GenreFilter(0)] else filters
  }

  /** The section select's `toUriPart()`: the value sent for a state, which must index the table. */
  function SectionPart(section: nat): (r: Result<string>)
    ensures r.Success? <==> section < |SECTION_VALS|
    ensures r.Success? ==> r.value == SECTION_VALS[section].1
    ensures r.Failure? ==> r.error == "ArrayIndexOutOfBoundsException"
  {
    if section < |SECTION_VALS| then Success(SECTION_VALS[section].1) else Failure("ArrayIndexOutOfBoundsException")
  }

  /**
   * The listing segment: a chosen section's value, else the chosen genre
   * lowercased, else the request throws. The only section is the
   * placeholder, so choosing any other state cannot be read.
   */
  function ListingSegment(section: nat, genre: nat): (r: Result<string>)
    ensures section == 0 && genre == 0 ==> r == Failure(CHOOSE_MESSAGE)
    ensures section != 0 ==> r == Failure("ArrayIndexOutOfBoundsException")
    ensures section == 0 && genre != 0 ==>
      (r.Success? <==> genre < |GENRE_VALS|) && (r.Success? ==> r.value == Lowercase(GENRE_VALS[genre]))
    ensures r.Failure? && (section != 0 || genre != 0) ==> r.error == "ArrayIndexOutOfBoundsException"
  {
    if section != 0 then SectionPart(section)
    else if genre != 0 then
      if genre < |GENRE_VALS| then Success(Lowercase(GENRE_VALS[genre])) else Failure("ArrayIndexOutOfBoundsException")
    else Failure(CHOOSE_MESSAGE)
  }

  /**
   * The path the builder ends with: the site's root `/` pushed with the
   * listing segment, "page" and the page number, each push replacing a
   * trailing empty segment.
   */
  function ListingPath(segment: string, page: int): seq<string>
  {
    PushSegment(PushSegment(PushSegment([""], Encode(segment, false)), Encode(PAGE_SEGMENT, false)), Encode(IntToString(page), false))
  }

  /** `searchAnimeRequest` as a URL. */
  function SearchUrl(page: int, query: string, filters: seq<Filter>): (r: Result<string>)
    ensures !IsBlank(query) ==> r == Success(BASE_URL + "/page/" + IntToString(page) + "?s=" + query)
    ensures IsBlank(query) && (FirstOf(Sheet(filters), Section).None? || FirstOf(Sheet(filters), Genre).None?)
      ==> r == Failure("NullPointerException")
    ensures IsBlank(query) && FirstOf(Sheet(filters), Section).Some? && FirstOf(Sheet(filters), Genre).Some? ==>
      r == Listing(ListingSegment(FirstOf(Sheet(filters), Section).value, FirstOf(Sheet(filters), Genre).value), page)
  {
    if !IsBlank(query) then Success(BASE_URL + "/page/" + IntToString(page) + "?s=" + query)
    else
      var fs := Sheet(filters);
      match (FirstOf(fs, Section), FirstOf(fs, Genre))
      case (Some(s), Some(g)) => Listing(ListingSegment(s, g), page)
      case _ => Failure("NullPointerException")
  }

  /** The listing URL for a chosen segment, or the failure choosing it raised. */
  function Listing(segment: Result<string>, page: int): (r: Result<string>)
    ensures r.Failure? <==> segment.Failure?
    ensures r.Failure? ==> r.error == segment.error
    ensures r.Success? ==> r.value == Render(BASE_URL, ListingPath(segment.value, page), [])
  {
    match segment
    case Failure(e) => Failure(e)
    case Success(seg) => Success(Render(BASE_URL, ListingPath(seg, page), []))
  }

  /** Whatever the segment, the listing path ends with `page/<n>`. */
  lemma ListingPathEnds(segment: string, page: int)
    ensures var p := ListingPath(segment, page); |p| >= 2 && p[|p| - 2..] == [PAGE_SEGMENT, IntToString(page)]
  {
    if segment == "" {
      EmptySegmentVanishes(page);
    } else {
      ListingPathOf(segment, page);
    }
  }

  /** `find` reads the first filter of a kind, whatever comes after it. */
  lemma FirstOfAt(fs: seq<Filter>, kind: Kind, k: nat)
    requires k < |fs| && OfKind(fs[k], kind) && forall j :: 0 <= j < k ==> !OfKind(fs[j], kind)
    ensures FirstOf(fs, kind) == Some(fs[k].state)
  {
  }

  /**
   * For any sheet with a blank query: the first section select and the
   * first genre select decide the listing, in that order of precedence.
   */
  lemma ChosenSelects(page: int, query: string, filters: seq<Filter>, i: nat, j: nat)
    requires IsBlank(query)
    requires i < |Sheet(filters)| && Sheet(filters)[i].SectionFilter? && forall k :: 0 <= k < i ==> !Sheet(filters)[k].SectionFilter?
    requires j < |Sheet(filters)| && Sheet(filters)[j].GenreFilter? && forall k :: 0 <= k < j ==> !Sheet(filters)[k].GenreFilter?
    ensures Sheet(filters)[i].state != 0 ==>
      SearchUrl(page, query, filters) == Failure("ArrayIndexOutOfBoundsException")
    ensures Sheet(filters)[i].state == 0 && Sheet(filters)[j].state == 0 ==>
      SearchUrl(page, query, filters) == Failure(CHOOSE_MESSAGE)
    ensures Sheet(filters)[i].state == 0 && 0 < Sheet(filters)[j].state < |GENRE_VALS| ==>
      SearchUrl(page, query, filters) == Success(Render(BASE_URL, ListingPath(Lowercase(GENRE_VALS[Sheet(filters)[j].state]), page), []))
  {
    FirstOfAt(Sheet(filters), Section, i);
    FirstOfAt(Sheet(filters), Genre, j);
  }

  /** A sheet without a section select, or without a genre select, fails the cast. */
  lemma MissingSelectThrows(page: int, query: string, filters: seq<Filter>, kind: Kind)
    requires IsBlank(query) && |filters| > 0
    requires forall k :: 0 <= k < |filters| ==> !OfKind(filters[k], kind)
    ensures SearchUrl(page, query, filters) == Failure("NullPointerException")
  {
  }

  /**
   * The sheet the app builds, with any states: a chosen section throws, as
   * the only section is the placeholder; else a chosen genre is listed
   * lowercased; else the user is asked to choose.
   */
  lemma AppSheet(page: int, s: nat, g: nat)
    ensures var r := SearchUrl(page, "", [OtherFilter, SectionFilter(s), OtherFilter, OtherFilter, GenreFilter(g)]);
      (s != 0 ==> r == Failure("ArrayIndexOutOfBoundsException"))
      && (s == 0 && g == 0 ==> r == Failure(CHOOSE_MESSAGE))
      && (s == 0 && 0 < g < |GENRE_VALS| ==> r == Success(Render(BASE_URL, ListingPath(Lowercase(GENRE_VALS[g]), page), [])))
      && (s == 0 && g >= |GENRE_VALS| ==> r == Failure("ArrayIndexOutOfBoundsException"))
  {
    var fs := [OtherFilter, SectionFilter(s), OtherFilter, OtherFilter, GenreFilter(g)];
    FirstOfAt(fs, Section, 1);
    FirstOfAt(fs, Genre, 4);
  }

  /** The page number is written into the path as it is. */
  lemma PageTextPlain(page: int)
    ensures Encode(IntToString(page), false) == IntToString(page) && |IntToString(page)| > 0
  {
    var t := IntToString(page);
    var n: nat := if page < 0 then -page else page;
    NatTextAscii(n);
    SignOfText(page);
    assert t == if page < 0 then "-" + IntToString(n) else IntToString(n);
    forall k | 0 <= k < |t|
      ensures !Escapes(t[k], false)
    {
      if page < 0 && k > 0 {
        assert t[k] == IntToString(n)[k - 1];
      }
    }
    EncodePlain(t, false);
  }

  /** A non-empty segment is the first of three: `/<segment>/page/<n>`. */
  lemma ListingPathOf(segment: string, page: int)
    requires segment != ""
    ensures ListingPath(segment, page) == [Encode(segment, false), PAGE_SEGMENT, IntToString(page)]
  {
    var e := Encode(segment, false);
    EncodeNonEmpty(segment, false);
    PageTextPlain(page);
    PageSegmentPlain();
    PushOntoRoot(e, PAGE_SEGMENT, IntToString(page));
  }

  /** Pushing onto the root `/` replaces its empty segment; non-empty segments then stack. */
  lemma PushOntoRoot(a: string, b: string, c: string)
    requires a != "" && b != ""
    ensures PushSegment(PushSegment(PushSegment([""], a), b), c) == [a, b, c]
  {
    var p1 := PushSegment([""], a);
    assert p1 == [a];
    var p2 := PushSegment(p1, b);
    assert p2 == [a, b];
  }

  lemma PageSegmentPlain()
    ensures Encode(PAGE_SEGMENT, false) == PAGE_SEGMENT
  {
    EncodePlain(PAGE_SEGMENT, false);
  }

  /** An empty segment is replaced by "page": the listing is `/page/<n>`. */
  lemma EmptySegmentVanishes(page: int)
    ensures ListingPath("", page) == [PAGE_SEGMENT, IntToString(page)]
  {
    PageTextPlain(page);
    PageSegmentPlain();
  }

  /** The untouched sheet, or an empty filter list, asks the user to choose. */
  lemma NothingChosenThrows(page: int)
    ensures SearchUrl(page, "", []) == Failure(CHOOSE_MESSAGE)
  {
    assert IsBlank("");
    ChosenSelects(page, "", [], 1, 4);
  }

  /** A sheet of one section and one genre select lists what the two choose. */
  lemma TwoFilterSheet(page: int, s: nat, g: nat)
    ensures SearchUrl(page, "", [SectionFilter(s), GenreFilter(g)]) ==
      match ListingSegment(s, g)
      case Failure(e) => Failure(e)
      case Success(seg) => Success(Render(BASE_URL, ListingPath(seg, page), []))
  {
    var fs := [SectionFilter(s), GenreFilter(g)];
    assert FirstOf(fs, Section) == Some(s) && FirstOf(fs, Genre) == Some(g);
  }

  /** The only section is the placeholder, so choosing any other throws. */
  lemma AnySectionThrows(page: int, s: nat, g: nat)
    requires s != 0
    ensures SearchUrl(page, "", [SectionFilter(s), GenreFilter(g)]).Failure?
  {
    TwoFilterSheet(page, s, g);
  }

  /**
   * After sorting, the "choose" placeholder is the last genre: choosing it
   * lists the genre named after it.
   */
  lemma PlaceholderSortsLast(page: int)
    ensures SearchUrl(page, "", [SectionFilter(0), GenreFilter(2)])
      == Success(Render(BASE_URL, [Encode(GENRE_VALS[2], false), PAGE_SEGMENT, IntToString(page)], []))
  {
    TwoFilterSheet(page, 0, 2);
    PlaceholderLowercase();
    ListingPathOf(GENRE_VALS[2], page);
  }

  lemma PlaceholderLowercase()
    ensures ListingSegment(0, 2) == Success(GENRE_VALS[2]) && GENRE_VALS[2] != ""
  {
    var t := GENRE_VALS[2];
    assert forall k :: 0 <= k < |t| ==> LowerChar(t[k]) == t[k];
    assert Lowercase(t) == t;
  }

  /** The empty genres that sort first list `/page/<n>`: the empty segment is replaced by "page". */
  lemma EmptyGenreListing(page: int)
    ensures SearchUrl(page, "", [SectionFilter(0), GenreFilter(1)]) == Success(Render(BASE_URL, [PAGE_SEGMENT, IntToString(page)], []))
  {
    TwoFilterSheet(page, 0, 1);
    assert Lowercase("") == "";
    EmptySegmentVanishes(page);
  }

  // ---------------------------------------------------------------------
  // Latest
  // ---------------------------------------------------------------------

  /** `latestUpdatesFromElement`'s title: the poster's alt text and the episode title in parentheses. */
  function LatestTitle(alt: string, episodeTitle: string): string
  {
    alt + " (" + episodeTitle + ")"
  }

  /** An episode title without "(" reads back from the title's last "(". */
  lemma LatestTitleReadBack(alt: string, episodeTitle: string)
    requires '(' !in episodeTitle
    ensures SubstringBeforeLast(LatestTitle(alt, episodeTitle), "(") == alt + " "
    ensures RemoveSuffix(SubstringAfterLast(LatestTitle(alt, episodeTitle), "("), ")") == episodeTitle
  {
    var tail := episodeTitle + ")";
    assert LatestTitle(alt, episodeTitle) == (alt + " ") + ['('] + tail;
    LastOccurrence(alt + " ", '(', tail);
    assert EndsWith(tail, ")") by {
      assert tail[|tail| - 1..] == ")";
    }
  }
}
