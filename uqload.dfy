/**
 * The string-parsing part of the UQLoad extractor used by Shahid4U: the
 * stream URL is the quoted text after `sources: ["`, and a script that
 * mentions `sources` yields exactly one video labelled "<Host> Mirror".
 */
module UQLoad {
  import opened Wrappers
  import opened KotlinText
  import opened Media

  const SOURCES_OPEN: string := "sources: [\""

  /** The text after `sources: ["` up to the next quote. */
  function StreamUrl(script: string): string
  {
    SubstringBefore(SubstringAfter(script, SOURCES_OPEN), "\"")
  }

  /**
   * `videosFromUrl` after the fetch: `script` is the first script mentioning
   * `sources`, `None` when there is none (the source's `!!` then throws).
   */
  function VideosFromScript(script: Option<string>, host: string): (r: Result<seq<Video>>)
    ensures script.None? <==> r.Failure?
    ensures r.Success? ==> (|r.value| == 1 <==> Contains(script.value, "sources"))
    ensures r.Success? ==> |r.value| <= 1
    ensures r.Success? ==> forall k :: 0 <= k < |r.value| ==>
      r.value[k].url == r.value[k].videoUrl == StreamUrl(script.value)
      && r.value[k].quality == Capitalize(host) + " Mirror"
  {
    match script
    case None => Failure("NullPointerException")
    case Some(check) =>
      var videoUrl := StreamUrl(check);
      var qualityHost := Capitalize(host);
      if Contains(check, "sources") then Success([Video(videoUrl, qualityHost + " Mirror", videoUrl)])
      else Success([])
  }

  /** A script `<pre>sources: ["<url>"<rest>` (first marker shown, no quote in the URL) yields that URL. */
  lemma WellFormedScript(pre: string, url: string, rest: string, host: string)
    requires FirstAtEnd(pre, SOURCES_OPEN) && '\"' !in url
    ensures var script := pre + SOURCES_OPEN + url + "\"" + rest;
      VideosFromScript(Some(script), host) == Success([Video(url, Capitalize(host) + " Mirror", url)])
  {
    var script := pre + SOURCES_OPEN + url + "\"" + rest;
    FirstAtEndChar(url, '\"');
    Between(pre, SOURCES_OPEN, url, "\"", rest);
    assert OccursAt(script, "sources", |pre|) by {
      assert script[|pre|..|pre| + 7] == SOURCES_OPEN[..7];
    }
    OccursAtContains(script, "sources", |pre|);
  }
}
