/**
 * The two ways the scrapers put the user's preferred quality first.
 *
 * The insertion loop (AnimeFlv, AsianLoad, AnimeBlkom) walks the list once,
 * inserting each preferred video at a growing front index and appending the
 * others: a stable partition.
 *
 * The sort-then-reverse form (Shahid4U, Tuktuk, EgyDead, AskTv, A4U) sorts
 * stably by "label contains the preference" (false before true) and then
 * reverses the whole list, so each group ends up in reverse order.
 *
 * The list lemmas are stated for any Boolean key on videos.
 */
module Prioritise {
  import opened KotlinText
  import opened Media

  /** How a label is compared with the preference. */
  datatype Match = Exact | Substring

  predicate Prefers(v: Video, pref: string, how: Match)
  {
    match how
    case Exact => v.quality == pref
    case Substring => Contains(v.quality, pref)
  }

  /** The preference test as a key on videos. */
  function Test(pref: string, how: Match): Video -> bool
  {
    v => Prefers(v, pref, how)
  }

  /** The videos whose key equals `want`, in list order. */
  function Keep(vs: seq<Video>, key: Video -> bool, want: bool): (r: seq<Video>)
    ensures |r| <= |vs|
    ensures forall k :: 0 <= k < |r| ==> key(r[k]) == want
  {
    if |vs| == 0 then []
    else Keep(vs[..|vs| - 1], key, want) + (if key(vs[|vs| - 1]) == want then [vs[|vs| - 1]] else [])
  }

  lemma {:induction false} KeepAppend(a: seq<Video>, b: seq<Video>, key: Video -> bool, want: bool)
    ensures Keep(a + b, key, want) == Keep(a, key, want) + Keep(b, key, want)
    decreases |b|
  {
    if |b| == 0 {
      assert a + b == a;
    } else {
      assert (a + b)[..|a + b| - 1] == a + b[..|b| - 1];
      KeepAppend(a, b[..|b| - 1], key, want);
    }
  }

  /** A list whose members all have key `want` is kept whole by `want` and dropped by its negation. */
  lemma {:induction false} KeepUniform(vs: seq<Video>, key: Video -> bool, want: bool)
    requires forall k :: 0 <= k < |vs| ==> key(vs[k]) == want
    ensures Keep(vs, key, want) == vs
    ensures Keep(vs, key, !want) == []
  {
    if |vs| > 0 {
      KeepUniform(vs[..|vs| - 1], key, want);
    }
  }

  /** The two groups together hold exactly the original videos. */
  lemma {:induction false} KeepPermutation(vs: seq<Video>, key: Video -> bool)
    ensures multiset(Keep(vs, key, true) + Keep(vs, key, false)) == multiset(vs)
  {
    if |vs| > 0 {
      var n := |vs|;
      KeepPermutation(vs[..n - 1], key);
      assert vs == vs[..n - 1] + [vs[n - 1]];
    }
  }

  /** The stable partition the insertion loop computes. */
  function PreferredFirst(vs: seq<Video>, pref: string, how: Match): seq<Video>
  {
    Keep(vs, Test(pref, how), true) + Keep(vs, Test(pref, how), false)
  }

  /**
   * The insertion loop: each preferred video goes in at index `preferred`,
   * which then advances; every other video is appended.
   */
  method InsertPreferred(videos: seq<Video>, pref: string, how: Match) returns (newList: seq<Video>)
    ensures newList == PreferredFirst(videos, pref, how)
  {
    ghost var key := Test(pref, how);
    ghost var front: seq<Video>, back: seq<Video> := [], [];
    newList := [];
    var preferred := 0;
    for i := 0 to |videos|
      invariant preferred == |front| && newList == front + back
      invariant front == Keep(videos[..i], key, true)
      invariant back == Keep(videos[..i], key, false)
    {
      var video := videos[i];
      KeepStep(videos, i, key);
      if Prefers(video, pref, how) {
        SplitAround(front, back);
        newList := newList[..preferred] + [video] + newList[preferred..];
        front := front + [video];
        preferred := preferred + 1;
      } else {
        newList := newList + [video];
        back := back + [video];
      }
    }
    assert videos[..|videos|] == videos;
  }

  /** One more video of the list joins the end of its own group and leaves the other group as it was. */
  lemma KeepStep(vs: seq<Video>, i: nat, key: Video -> bool)
    requires i < |vs|
    ensures key(vs[i]) ==> Keep(vs[..i + 1], key, true) == Keep(vs[..i], key, true) + [vs[i]]
    ensures key(vs[i]) ==> Keep(vs[..i + 1], key, false) == Keep(vs[..i], key, false)
    ensures !key(vs[i]) ==> Keep(vs[..i + 1], key, true) == Keep(vs[..i], key, true)
    ensures !key(vs[i]) ==> Keep(vs[..i + 1], key, false) == Keep(vs[..i], key, false) + [vs[i]]
  {
    assert vs[..i + 1] == vs[..i] + [vs[i]];
    KeepSnoc(vs[..i], vs[i], key);
  }

  /** One more video joins the end of its own group and leaves the other group as it was. */
  lemma KeepSnoc(vs: seq<Video>, v: Video, key: Video -> bool)
    ensures key(v) ==> Keep(vs + [v], key, true) == Keep(vs, key, true) + [v]
    ensures key(v) ==> Keep(vs + [v], key, false) == Keep(vs, key, false)
    ensures !key(v) ==> Keep(vs + [v], key, true) == Keep(vs, key, true)
    ensures !key(v) ==> Keep(vs + [v], key, false) == Keep(vs, key, false) + [v]
  {
    assert (vs + [v])[..|vs|] == vs;
    assert Keep(vs, key, true) + [] == Keep(vs, key, true);
    assert Keep(vs, key, false) + [] == Keep(vs, key, false);
  }

  lemma SplitAround(front: seq<Video>, back: seq<Video>)
    ensures (front + back)[..|front|] == front && (front + back)[|front|..] == back
  {
  }

  /** The partition reorders without losing or adding videos. */
  lemma PreferredFirstPermutation(vs: seq<Video>, pref: string, how: Match)
    ensures multiset(PreferredFirst(vs, pref, how)) == multiset(vs)
  {
    KeepPermutation(vs, Test(pref, how));
  }

  /** Every preferred video comes before every other one. */
  lemma PreferredFirstOrder(vs: seq<Video>, pref: string, how: Match)
    ensures var r := PreferredFirst(vs, pref, how);
      forall i, j :: 0 <= i < j < |r| && Prefers(r[j], pref, how) ==> Prefers(r[i], pref, how)
  {
    var t := Keep(vs, Test(pref, how), true);
    var f := Keep(vs, Test(pref, how), false);
    var r := t + f;
    forall i, j | 0 <= i < j < |r| && Prefers(r[j], pref, how)
      ensures Prefers(r[i], pref, how)
    {
      assert r[i] == t[i];
      assert Test(pref, how)(t[i]);
    }
  }

  /** Inside each group the original order is kept. */
  lemma PreferredFirstStable(vs: seq<Video>, pref: string, how: Match)
    ensures Keep(PreferredFirst(vs, pref, how), Test(pref, how), true) == Keep(vs, Test(pref, how), true)
    ensures Keep(PreferredFirst(vs, pref, how), Test(pref, how), false) == Keep(vs, Test(pref, how), false)
  {
    var key := Test(pref, how);
    var t := Keep(vs, key, true);
    var f := Keep(vs, key, false);
    KeepAppend(t, f, key, true);
    KeepAppend(t, f, key, false);
    KeepUniform(t, key, true);
    KeepUniform(f, key, false);
  }

  // ---------------------------------------------------------------------
  // sortedWith(compareBy { it.quality.contains(pref) }).reversed()
  // ---------------------------------------------------------------------

  /** Insert `x` after the last element whose key is not greater than its own (false < true). */
  function InsertStable(x: Video, s: seq<Video>, key: Video -> bool): seq<Video>
  {
    if |s| == 0 || !key(s[|s| - 1]) || key(x) then s + [x]
    else InsertStable(x, s[..|s| - 1], key) + [s[|s| - 1]]
  }

  /** A stable sort by a Boolean key, as an insertion sort. */
  function SortByKey(vs: seq<Video>, key: Video -> bool): seq<Video>
  {
    if |vs| == 0 then []
    else InsertStable(vs[|vs| - 1], SortByKey(vs[..|vs| - 1], key), key)
  }

  /** `reversed()`. */
  function Reverse<T>(s: seq<T>): (r: seq<T>)
    ensures |r| == |s|
    ensures forall k :: 0 <= k < |s| ==> r[k] == s[|s| - 1 - k]
  {
    if |s| == 0 then [] else Reverse(s[1..]) + [s[0]]
  }

  /** The order the sort-then-reverse scrapers return. */
  function SortedThenReversed(vs: seq<Video>, pref: string): seq<Video>
  {
    Reverse(SortByKey(vs, Test(pref, Substring)))
  }

  /** Inserting a false-key video into "false keys ++ true keys" lands it between the two. */
  lemma {:induction false} InsertBetween(x: Video, a: seq<Video>, b: seq<Video>, key: Video -> bool)
    requires !key(x)
    requires forall k :: 0 <= k < |a| ==> !key(a[k])
    requires forall k :: 0 <= k < |b| ==> key(b[k])
    ensures InsertStable(x, a + b, key) == a + [x] + b
    decreases |b|
  {
    if |b| == 0 {
      assert a + b == a;
    } else {
      var n := |b|;
      var last := b[n - 1];
      assert (a + b)[|a + b| - 1] == last;
      assert (a + b)[..|a + b| - 1] == a + b[..n - 1];
      InsertBetween(x, a, b[..n - 1], key);
      assert b == b[..n - 1] + [last];
    }
  }

  /** The stable sort is the partition "false keys, then true keys", each in list order. */
  lemma {:induction false} SortIsPartition(vs: seq<Video>, key: Video -> bool)
    ensures SortByKey(vs, key) == Keep(vs, key, false) + Keep(vs, key, true)
  {
    if |vs| > 0 {
      var n := |vs|;
      var front := vs[..n - 1];
      var x := vs[n - 1];
      SortIsPartition(front, key);
      if !key(x) {
        InsertBetween(x, Keep(front, key, false), Keep(front, key, true), key);
      }
    }
  }

  /** Among the sorted videos no true key precedes a false one. */
  lemma SortIsSorted(vs: seq<Video>, key: Video -> bool)
    ensures forall i, j ::
      0 <= i < j < |SortByKey(vs, key)| && key(SortByKey(vs, key)[i]) ==> key(SortByKey(vs, key)[j])
  {
    SortIsPartition(vs, key);
    var f := Keep(vs, key, false);
    var t := Keep(vs, key, true);
    var r := f + t;
    forall i, j | 0 <= i < j < |r| && key(r[i])
      ensures key(r[j])
    {
      assert r[j] == t[j - |f|];
    }
  }

  /** The sort only reorders. */
  lemma SortPermutation(vs: seq<Video>, key: Video -> bool)
    ensures multiset(SortByKey(vs, key)) == multiset(vs)
  {
    SortIsPartition(vs, key);
    KeepPermutation(vs, key);
    assert multiset(Keep(vs, key, false) + Keep(vs, key, true))
      == multiset(Keep(vs, key, true) + Keep(vs, key, false));
  }

  /** Reversing twice gives the list back. */
  lemma ReverseTwice<T>(s: seq<T>)
    ensures Reverse(Reverse(s)) == s
  {
    var r := Reverse(s);
    assert forall k :: 0 <= k < |s| ==> Reverse(r)[k] == r[|r| - 1 - k] == s[k];
  }

  lemma ReverseAppend<T>(a: seq<T>, b: seq<T>)
    ensures Reverse(a + b) == Reverse(b) + Reverse(a)
  {
    forall k | 0 <= k < |a| + |b|
      ensures Reverse(a + b)[k] == (Reverse(b) + Reverse(a))[k]
    {
      if k < |b| {
        assert Reverse(a + b)[k] == (a + b)[|a| + |b| - 1 - k];
      }
    }
  }

  lemma {:induction false} ReverseMultiset<T>(s: seq<T>)
    ensures multiset(Reverse(s)) == multiset(s)
  {
    if |s| > 0 {
      ReverseMultiset(s[1..]);
      assert s == [s[0]] + s[1..];
    }
  }

  lemma {:induction false} KeepReverse(s: seq<Video>, key: Video -> bool, want: bool)
    ensures Keep(Reverse(s), key, want) == Reverse(Keep(s, key, want))
  {
    if |s| > 0 {
      var n := |s|;
      var front := s[..n - 1];
      var x := s[n - 1];
      assert s == front + [x];
      ReverseAppend(front, [x]);
      assert Reverse([x]) == [x];
      KeepAppend([x], Reverse(front), key, want);
      KeepReverse(front, key, want);
      var single := if key(x) == want then [x] else [];
      assert Keep([x], key, want) == single;
      assert Reverse(single) == single;
      ReverseAppend(Keep(front, key, want), single);
    }
  }

  /** Sort-then-reverse is "matching reversed, then non-matching reversed". */
  lemma SortedThenReversedShape(vs: seq<Video>, pref: string)
    ensures SortedThenReversed(vs, pref)
      == Reverse(Keep(vs, Test(pref, Substring), true)) + Reverse(Keep(vs, Test(pref, Substring), false))
  {
    var key := Test(pref, Substring);
    SortIsPartition(vs, key);
    ReverseAppend(Keep(vs, key, false), Keep(vs, key, true));
  }

  /** Sort-then-reverse only reorders. */
  lemma SortedThenReversedPermutation(vs: seq<Video>, pref: string)
    ensures multiset(SortedThenReversed(vs, pref)) == multiset(vs)
  {
    SortPermutation(vs, Test(pref, Substring));
    ReverseMultiset(SortByKey(vs, Test(pref, Substring)));
  }

  /** After sort-then-reverse every matching video comes before every other one. */
  lemma SortedThenReversedOrder(vs: seq<Video>, pref: string)
    ensures var r := SortedThenReversed(vs, pref);
      forall i, j :: 0 <= i < j < |r| && Contains(r[j].quality, pref) ==> Contains(r[i].quality, pref)
  {
    var key := Test(pref, Substring);
    var s := SortByKey(vs, key);
    SortIsSorted(vs, key);
    var r := Reverse(s);
    forall i, j | 0 <= i < j < |r| && Contains(r[j].quality, pref)
      ensures Contains(r[i].quality, pref)
    {
      var i', j' := |s| - 1 - j, |s| - 1 - i;
      assert r[j] == s[i'] && key(s[i']);
      assert i' < j';
      assert key(s[j']);
      assert r[i] == s[j'];
    }
  }

  /** After sort-then-reverse each group is in the reverse of its original order. */
  lemma SortedThenReversedGroups(vs: seq<Video>, pref: string)
    ensures Keep(SortedThenReversed(vs, pref), Test(pref, Substring), true)
      == Reverse(Keep(vs, Test(pref, Substring), true))
    ensures Keep(SortedThenReversed(vs, pref), Test(pref, Substring), false)
      == Reverse(Keep(vs, Test(pref, Substring), false))
  {
    var key := Test(pref, Substring);
    SortedThenReversedShape(vs, pref);
    var rt := Reverse(Keep(vs, key, true));
    var rf := Reverse(Keep(vs, key, false));
    assert forall k :: 0 <= k < |rt| ==> key(rt[k]);
    assert forall k :: 0 <= k < |rf| ==> !key(rf[k]);
    KeepAppend(rt, rf, key, true);
    KeepAppend(rt, rf, key, false);
    KeepUniform(rt, key, true);
    KeepUniform(rf, key, false);
  }

  /**
   * The two schemes disagree as soon as two labels match: the insertion loop
   * keeps their order, sort-then-reverse swaps it.
   */
  lemma SchemesDiffer()
    ensures var a := Video("a", "1080p", "a");
      var b := Video("b", "1080p HD", "b");
      PreferredFirst([a, b], "1080", Substring) == [a, b]
      && SortedThenReversed([a, b], "1080") == [b, a]
  {
    var a := Video("a", "1080p", "a");
    var b := Video("b", "1080p HD", "b");
    assert OccursAt(a.quality, "1080", 0);
    assert OccursAt(b.quality, "1080", 0);
    var key := Test("1080", Substring);
    assert [a, b][..1] == [a];
    KeepUniform([a, b], key, true);
    SortedThenReversedShape([a, b], "1080");
  }
}
