/**
 * The string-parsing part of the VidBom extractor: the player script's
 * `sources: [ … ],` block is cut into one entry per `file:"` marker, and each
 * entry gives a stream URL and a label. The same block parser is inlined in
 * the ArabLionz scraper.
 */
module VidBom {
  import opened Wrappers
  import opened KotlinText
  import opened Media

  const FILE_MARKER: string := "file:\""
  const LABEL_MARKER: string := "label:\""

  /** The text after `sources: [` and before `],` (each step keeps the text when its marker is missing). */
  function SourcesBlock(script: string): string
  {
    SubstringBefore(SubstringAfter(script, "sources: ["), "],")
  }

  /** The block split on `file:"`, without the piece before the first marker. */
  function SourceEntries(script: string): (r: seq<string>)
    ensures |r| == |Split(SourcesBlock(script), FILE_MARKER)| - 1
  {
    Split(SourcesBlock(script), FILE_MARKER)[1..]
  }

  /** The stream URL of an entry: its text up to the first quote. */
  function EntryFile(entry: string): string
  {
    SubstringBefore(entry, "\"")
  }

  /** The label of an entry: the text after `label:"` up to the next quote. */
  function EntryLabel(entry: string): string
  {
    SubstringBefore(SubstringAfter(entry, LABEL_MARKER), "\"")
  }

  /** The quality shown for an entry, chosen by the player URL. */
  function Quality(url: string, entry: string): (r: string)
    ensures Contains(url, "go") ==> r == "Vidbom: " + EntryLabel(entry)
    ensures !Contains(url, "go") && Contains(url, "sha") ==> r == "Vidshare: SD"
    ensures !Contains(url, "go") && !Contains(url, "sha") ==> r == "Govad: " + EntryLabel(entry)
  {
    if Contains(url, "go") then "Vidbom: " + EntryLabel(entry)
    else if Contains(url, "sha") then "Vidshare: SD"
    else "Govad: " + EntryLabel(entry)
  }

  function VideoOf(url: string, entry: string): Video
  {
    Video(EntryFile(entry), Quality(url, entry), EntryFile(entry))
  }

  function MapVideos(url: string, entries: seq<string>): (r: seq<Video>)
    ensures |r| == |entries|
    ensures forall k :: 0 <= k < |entries| ==> r[k] == VideoOf(url, entries[k])
  {
    if |entries| == 0 then [] else [VideoOf(url, entries[0])] + MapVideos(url, entries[1..])
  }

  /**
   * `videosFromUrl` after the fetch: `script` is the first script mentioning
   * `sources`, `None` when there is none (the source's `!!` then throws).
   */
  function VideosFromScript(url: string, script: Option<string>): (r: Result<seq<Video>>)
    ensures script.None? <==> r.Failure?
    ensures r.Success? ==> |r.value| == |SourceEntries(script.value)|
    ensures r.Success? ==> forall k :: 0 <= k < |r.value| ==>
      r.value[k].url == r.value[k].videoUrl == EntryFile(SourceEntries(script.value)[k])
  {
    match script
    case None => Failure("NullPointerException")
    case Some(s) => Success(MapVideos(url, SourceEntries(s)))
  }

  // ---------------------------------------------------------------------
  // Properties
  // ---------------------------------------------------------------------

  /**
   * The entries are exactly the marker-separated pieces after the first: put
   * back behind the leading piece with the marker between them, they rebuild
   * the block, and none of them contains the marker.
   */
  lemma EntriesRebuildBlock(script: string)
    ensures var pieces := Split(SourcesBlock(script), FILE_MARKER);
      Join([pieces[0]] + SourceEntries(script), FILE_MARKER) == SourcesBlock(script)
    ensures forall k :: 0 <= k < |SourceEntries(script)| ==> !Contains(SourceEntries(script)[k], FILE_MARKER)
  {
    var block := SourcesBlock(script);
    var pieces := Split(block, FILE_MARKER);
    assert [pieces[0]] + pieces[1..] == pieces;
    JoinSplit(block, FILE_MARKER);
    SplitPiecesFree(block, FILE_MARKER);
  }

  /** A block without any `file:"` marker yields no video. */
  lemma NoMarkerNoVideos(url: string, script: string)
    requires !Contains(SourcesBlock(script), FILE_MARKER)
    ensures VideosFromScript(url, Some(script)) == Success([])
  {
    SplitMissing(SourcesBlock(script), FILE_MARKER);
  }

  /**
   * A well-formed entry `<file>"<sep>label:"<text>"<rest>` yields that file
   * as stream URL and that label.
   */
  lemma WellFormedEntry(file: string, sep: string, text: string, rest: string)
    requires '\"' !in file && '\"' !in text
    requires FirstAtEnd(file + "\"" + sep, LABEL_MARKER)
    ensures var entry := file + "\"" + sep + LABEL_MARKER + text + "\"" + rest;
      EntryFile(entry) == file && EntryLabel(entry) == text
  {
    var entry := file + "\"" + sep + LABEL_MARKER + text + "\"" + rest;
    FirstAtEndChar(file, '\"');
    assert entry == file + "\"" + (sep + LABEL_MARKER + text + "\"" + rest);
    FirstOccurrence(file, "\"", sep + LABEL_MARKER + text + "\"" + rest);
    FirstAtEndChar(text, '\"');
    assert entry == (file + "\"" + sep) + LABEL_MARKER + text + "\"" + rest;
    Between(file + "\"" + sep, LABEL_MARKER, text, "\"", rest);
  }

  /** The label prefix names the player family: "Vidbom: " exactly for URLs containing "go". */
  lemma QualityFamily(url: string, entry: string)
    ensures StartsWith(Quality(url, entry), "Vidbom: ") <==> Contains(url, "go")
    ensures Quality(url, entry) == "Vidshare: SD" <==> (!Contains(url, "go") && Contains(url, "sha"))
  {
    var q := Quality(url, entry);
    if Contains(url, "go") {
      assert q[3] == 'b';
    } else if Contains(url, "sha") {
      assert q[3] == 's';
    } else {
      assert q[0] == 'G';
    }
  }
}
