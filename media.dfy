/** The records the scrapers hand back to the host application. */
module Media {
  import opened Wrappers

  /** A playable stream: page URL, quality label, stream URL. */
  datatype Video = Video(url: string, quality: string, videoUrl: string)

  /**
   * An episode entry. `number` is the text the scraper converts to its
   * floating-point episode number, `None` when the scraper leaves it unset.
   */
  datatype Episode = Episode(url: string, name: string, number: Option<string>)

  /** Publication status, in the host's numbering UNKNOWN, ONGOING, COMPLETED, LICENSED. */
  datatype Status = Unknown | Ongoing | Completed | Licensed

  /** One page of a manga chapter. */
  datatype Page = Page(index: nat, url: string, imageUrl: string)

  /**
   * The host's parallel "catching" flat-map over servers, taken sequentially:
   * a server whose extraction failed (`None`) contributes nothing, the others
   * contribute their videos in server order.
   */
  function FlattenCatching(results: seq<Option<seq<Video>>>): seq<Video>
  {
    if |results| == 0 then []
    else FlattenCatching(results[..|results| - 1]) + results[|results| - 1].GetOr([])
  }

  /** Every video of the flattened list comes from a server that succeeded. */
  lemma {:induction false} FlattenFromSuccesses(results: seq<Option<seq<Video>>>, v: Video)
    requires v in FlattenCatching(results)
    ensures exists k :: 0 <= k < |results| && results[k].Some? && v in results[k].value
  {
    var n := |results|;
    var front := results[..n - 1];
    if v in FlattenCatching(front) {
      FlattenFromSuccesses(front, v);
      var k :| 0 <= k < |front| && front[k].Some? && v in front[k].value;
      assert results[k] == front[k];
    } else {
      assert v in results[n - 1].GetOr([]);
    }
  }

  /** Flattening two runs of servers is flattening each and concatenating. */
  lemma {:induction false} FlattenAppend(a: seq<Option<seq<Video>>>, b: seq<Option<seq<Video>>>)
    ensures FlattenCatching(a + b) == FlattenCatching(a) + FlattenCatching(b)
    decreases |b|
  {
    if |b| > 0 {
      var n := |b|;
      assert (a + b)[..|a + b| - 1] == a + b[..n - 1];
      FlattenAppend(a, b[..n - 1]);
    } else {
      assert a + b == a;
    }
  }

  /** A server that yields nothing, or fails, leaves the flattened list of the others unchanged. */
  lemma FlattenSilent(a: seq<Option<seq<Video>>>, x: Option<seq<Video>>, b: seq<Option<seq<Video>>>)
    requires x.GetOr([]) == []
    ensures FlattenCatching(a + [x] + b) == FlattenCatching(a) + FlattenCatching(b)
  {
    var one := [x];
    assert one[..0] == [];
    assert FlattenCatching(one) == [];
    FlattenAppend(a + one, b);
    FlattenAppend(a, one);
  }

  /** `before` in front of a parse's episodes; a failure stays a failure. */
  function Prepend(before: seq<Episode>, r: Result<seq<Episode>>): Result<seq<Episode>>
  {
    match r
    case Failure(e) => Failure(e)
    case Success(more) => Success(before + more)
  }

  lemma PrependNothing(r: Result<seq<Episode>>)
    ensures Prepend([], r) == r
  {
    if r.Success? {
      assert [] + r.value == r.value;
    }
  }

  lemma PrependTwice(a: seq<Episode>, b: seq<Episode>, r: Result<seq<Episode>>)
    ensures Prepend(a, Prepend(b, r)) == Prepend(a + b, r)
  {
    if r.Success? {
      assert a + (b + r.value) == a + b + r.value;
    }
  }
}
