/**
 * `fetchBlogger` and `loadMultiBlg` of he/all.js. A Blogger fetch answers
 * a fresh cache item synchronously; otherwise it injects a JSONP script
 * whose callback normalises the feed, stores it and passes it on. The slot
 * appends each source's list as it arrives and renders once the last
 * source has called back. A source whose callback throws never calls back.
 */
module BloggerLoader {
  import opened Wrappers
  import opened JsText
  import opened JsUri
  import opened Posts
  import opened FeedCache
  import opened Normalise
  import opened BloggerFeed

  /** The label part of the feed path: `/-/<encoded label>/` for a truthy category, else `/`. */
  function BlgLabelPath(category: Option<string>): string {
    if Truthy(category) then "/-/" + EncodeUriComponent(category.value) + "/" else "/"
  }

  /** The JSONP script URL `fetchBlogger` injects, with callback name `cbName`. */
  function BlgScriptUrl(source: string, category: Option<string>, count: int, cbName: string): string {
    "https://" + source + "/feeds/posts/default" + BlgLabelPath(category)
    + "?alt=json&max-results=" + IntToString(count) + "&callback=" + cbName
  }

  /**
   * The label segment is present exactly for a truthy category; it holds no
   * path or query delimiter and percent-decodes to the label's UTF-8 bytes.
   */
  lemma BlgLabelPathRecoverable(category: Option<string>)
    ensures !Truthy(category) ==> BlgLabelPath(category) == "/"
    ensures Truthy(category) ==>
      var path := BlgLabelPath(category);
      var enc := path[3..|path| - 1];
      && path == "/-/" + enc + "/"
      && (forall i :: 0 <= i < |enc| ==> !UrlDelimiter(enc[i]))
      && PercentDecode(enc) == Some(Utf8String(category.value))
  {
    if Truthy(category) {
      var enc := EncodeUriComponent(category.value);
      var path := "/-/" + enc + "/";
      assert path[3..|path| - 1] == enc;
      EncodedHasNoDelimiter(Utf8String(category.value));
      PercentRoundTrip(Utf8String(category.value));
    }
  }

  /** The posts of the sources that have called back, in arrival order. */
  function Gathered(arrived: seq<seq<Post>>): seq<Post> {
    if arrived == [] then [] else Gathered(arrived[..|arrived| - 1]) + arrived[|arrived| - 1]
  }

  /** A post is gathered exactly when one of the arrived lists holds it. */
  lemma {:induction false} GatheredMembers(arrived: seq<seq<Post>>, p: Post)
    ensures p in Gathered(arrived) <==> exists k :: 0 <= k < |arrived| && p in arrived[k]
  {
    if arrived != [] {
      var n := |arrived| - 1;
      GatheredMembers(arrived[..n], p);
      if exists k :: 0 <= k < n + 1 && p in arrived[k] {
        var k :| 0 <= k < n + 1 && p in arrived[k];
        if k < n {
          assert arrived[..n][k] == arrived[k];
        }
      }
      if p in Gathered(arrived[..n]) {
        var k :| 0 <= k < n && p in arrived[..n][k];
        assert arrived[k] == arrived[..n][k];
      }
    }
  }

  /**
   * Each of the sources `0 .. upTo - 1` is in exactly one state: called
   * back (once, in `got`), waiting (`pending`) or failed (`lost`).
   */
  ghost predicate Partition(got: seq<nat>, pending: set<nat>, lost: set<nat>, upTo: nat) {
    && |got| + |pending| + |lost| == upTo
    && (forall k :: 0 <= k < |got| ==> got[k] < upTo && got[k] !in pending && got[k] !in lost)
    && (forall k, l :: 0 <= k < l < |got| ==> got[k] != got[l])
    && (forall i :: i in pending ==> i < upTo && i !in lost)
    && (forall i :: i in lost ==> i < upTo)
    && (forall i :: 0 <= i < upTo ==> i in pending || i in lost || i in got)
  }

  lemma PartitionStartWaiting(got: seq<nat>, pending: set<nat>, lost: set<nat>, i: nat)
    requires Partition(got, pending, lost, i)
    ensures Partition(got, pending + {i}, lost, i + 1)
  {
    assert i !in pending;
  }

  lemma PartitionStartDelivered(got: seq<nat>, pending: set<nat>, lost: set<nat>, i: nat)
    requires Partition(got, pending, lost, i)
    ensures Partition(got + [i], pending, lost, i + 1)
  {
  }

  lemma PartitionCallBack(got: seq<nat>, pending: set<nat>, lost: set<nat>, upTo: nat, i: nat)
    requires Partition(got, pending, lost, upTo) && i in pending
    ensures Partition(got + [i], pending - {i}, lost, upTo)
    ensures Partition(got, pending - {i}, lost + {i}, upTo)
    ensures |got| < upTo
  {
    assert i !in lost;
    assert forall k :: 0 <= k < |got| ==> got[k] != i;
  }

  /** When every source has called back, none is waiting or failed. */
  lemma PartitionComplete(got: seq<nat>, pending: set<nat>, lost: set<nat>, upTo: nat)
    requires Partition(got, pending, lost, upTo) && |got| == upTo
    ensures pending == {} && lost == {}
    ensures forall i :: 0 <= i < upTo ==> i in got
  {
  }

  /** What each source's lookup finds at `now`. */
  function BlgHits(cache: Cache, srcs: seq<string>, count: int, now: int): (hits: seq<Option<seq<Post>>>)
    reads cache
    ensures |hits| == |srcs|
    ensures forall i :: 0 <= i < |srcs| ==> hits[i] == cache.Get(BlgKey(srcs[i], None, count), now)
  {
    seq(|srcs|, i requires 0 <= i < |srcs| reads cache => cache.Get(BlgKey(srcs[i], None, count), now))
  }

  /** The script URL each source would inject, with its callback name. */
  function BlgScriptUrls(srcs: seq<string>, count: int, cbNames: seq<string>): (urls: seq<string>)
    requires |srcs| == |cbNames|
    ensures |urls| == |srcs|
    ensures forall i :: 0 <= i < |srcs| ==> urls[i] == BlgScriptUrl(srcs[i], None, count, cbNames[i])
  {
    seq(|srcs|, i requires 0 <= i < |srcs| => BlgScriptUrl(srcs[i], None, count, cbNames[i]))
  }

  /**
   * The scripts the start of sources `0 .. n - 1` injects: the URLs of the
   * sources whose lookup missed, in source order.
   */
  function MissedUrls(hits: seq<Option<seq<Post>>>, urls: seq<string>, n: nat): seq<string>
    requires n <= |hits| == |urls|
  {
    if n == 0 then []
    else MissedUrls(hits, urls, n - 1) + (if hits[n - 1].None? then [urls[n - 1]] else [])
  }

  /** Starting one more source appends its script, if it missed, to those already injected. */
  lemma MissedUrlsStep(before: seq<string>, r0: seq<string>, r1: seq<string>,
                       hits: seq<Option<seq<Post>>>, urls: seq<string>, i: nat)
    requires i < |hits| == |urls|
    requires r0 == before + MissedUrls(hits, urls, i)
    requires r1 == r0 + (if hits[i].None? then [urls[i]] else [])
    ensures r1 == before + MissedUrls(hits, urls, i + 1)
  {
  }

  /**
   * A fresh item for every source injects no script; a miss for every
   * source injects every source's script, in source order.
   */
  lemma {:induction false} MissedUrlsExtremes(hits: seq<Option<seq<Post>>>, urls: seq<string>, n: nat)
    requires n <= |hits| == |urls|
    ensures (forall i :: 0 <= i < |hits| ==> hits[i].Some?) ==> MissedUrls(hits, urls, n) == []
    ensures (forall i :: 0 <= i < |hits| ==> hits[i].None?) ==> MissedUrls(hits, urls, n) == urls[..n]
  {
    if n > 0 {
      MissedUrlsExtremes(hits, urls, n - 1);
      assert urls[..n - 1] + [urls[n - 1]] == urls[..n];
    }
  }

  /** Each script requested belongs to a started source whose lookup missed, and every such source has one. */
  lemma {:induction false} MissedUrlsMembers(hits: seq<Option<seq<Post>>>, urls: seq<string>, n: nat, u: string)
    requires n <= |hits| == |urls|
    ensures u in MissedUrls(hits, urls, n) <==> exists i :: 0 <= i < n && hits[i].None? && urls[i] == u
  {
    if n > 0 {
      MissedUrlsMembers(hits, urls, n - 1, u);
    }
  }

  /**
   * After starting sources `0 .. upTo - 1`, given what each lookup found:
   * a source waits exactly when its lookup missed, and the sources that
   * called back did so in index order with their cached lists.
   */
  ghost predicate Started(hits: seq<Option<seq<Post>>>, got: seq<nat>, arrived: seq<seq<Post>>, pending: set<nat>, upTo: nat) {
    && upTo <= |hits|
    && (forall j :: 0 <= j < upTo ==> (j in pending <==> hits[j].None?))
    && |arrived| == |got|
    && (forall k :: 0 <= k < |got| ==> got[k] < upTo && hits[got[k]] == Some(arrived[k]))
    && (forall k, l :: 0 <= k < l < |got| ==> got[k] < got[l])
  }

  lemma StartedWaiting(hits: seq<Option<seq<Post>>>, got: seq<nat>, arrived: seq<seq<Post>>, pending: set<nat>, i: nat)
    requires Started(hits, got, arrived, pending, i) && i < |hits| && hits[i].None?
    ensures Started(hits, got, arrived, pending + {i}, i + 1)
  {
  }

  lemma StartedDelivered(hits: seq<Option<seq<Post>>>, got: seq<nat>, arrived: seq<seq<Post>>, pending: set<nat>, i: nat)
    requires Started(hits, got, arrived, pending, i) && i < |hits| && hits[i].Some? && i !in pending
    ensures Started(hits, got + [i], arrived + [hits[i].value], pending, i + 1)
  {
  }

  /** One multi-source Blogger slot: the closure state of `loadMultiBlg`. */
  class BloggerSlot {
    /** The trimmed `data-sources` entries. */
    const sources: seq<string>
    /** `parseInt(data-items) || 5`. */
    const count: int
    /** The posts received so far; sorted in place at the render. */
    var all: seq<Post>
    /** The number of sources that have called back. */
    var done: nat
    /** The container: `None` while the skeleton shows, else the rendered list. */
    var view: Option<View>
    /** The JSONP script URLs injected, one per missed source. */
    var requests: seq<string>
    /** Sources whose JSONP callback is registered and not yet run. */
    var pending: set<nat>
    /** Sources whose callback threw: they never call back. */
    ghost var lost: set<nat>
    /** The sources that have called back, in order, and what each passed. */
    ghost var got: seq<nat>
    ghost var arrived: seq<seq<Post>>

    /** The state after the sources `0 .. upTo - 1` have been started. */
    ghost predicate Inv(upTo: nat)
      reads this
    {
      && upTo <= |sources|
      && done == |got| == |arrived|
      && Partition(got, pending, lost, upTo)
      && (done < |sources| ==> all == Gathered(arrived) && view.None?)
      && (done == |sources| ==> all == SortByDate(Gathered(arrived)) && view == Some(RenderList(Take(all, count))))
    }

    ghost predicate Valid()
      reads this
    {
      Inv(|sources|)
    }

    /**
     * `loadMultiBlg(container)` for a container with `data-sources`: one
     * `fetchBlogger(s, null, count, …)` per source, in order. A fresh cache
     * item calls back at once; a miss injects a script and waits.
     */
    constructor (cache: Cache, sourcesAttr: string, itemsAttr: Option<string>, now: int, cbNames: seq<string>)
      requires |cbNames| == |Split(sourcesAttr, ',')|
      ensures Valid() && lost == {}
      ensures sources == SourceList(sourcesAttr) && count == ParseCount(itemsAttr)
      ensures StartedFrom(BlgHits(cache, sources, count, now), |sources|)
      ensures requests == MissedUrls(BlgHits(cache, sources, count, now), BlgScriptUrls(sources, count, cbNames), |sources|)
    {
      sources := SourceList(sourcesAttr);
      count := ParseCount(itemsAttr);
      all, done, view, requests, pending := [], 0, None, [], {};
      lost, got, arrived := {}, [], [];
      new;
      StartAll(cache, now, cbNames);
    }

    /** `sources.forEach(s => fetchBlogger(s, null, count, …))`. */
    method StartAll(cache: Cache, now: int, cbNames: seq<string>)
      requires |cbNames| == |sources| && Inv(0) && lost == {} && got == [] && arrived == [] && pending == {}
      modifies this
      ensures Valid() && lost == {}
      ensures StartedFrom(BlgHits(cache, sources, count, now), |sources|)
      ensures requests == old(requests) + MissedUrls(BlgHits(cache, sources, count, now), BlgScriptUrls(sources, count, cbNames), |sources|)
    {
      ghost var hits := BlgHits(cache, sources, count, now);
      ghost var urls := BlgScriptUrls(sources, count, cbNames);
      ghost var before := requests;
      var i := 0;
      while i < |sources|
        invariant 0 <= i <= |sources|
        invariant Inv(i) && lost == {} && StartedFrom(hits, i)
        invariant requests == before + MissedUrls(hits, urls, i)
      {
        StartNext(cache, now, i, cbNames, hits, urls, before);
        i := i + 1;
      }
    }

    /** One step of the `forEach`: look source `i` up in the cache and start it. */
    method StartNext(cache: Cache, now: int, i: nat, cbNames: seq<string>,
                     ghost hits: seq<Option<seq<Post>>>, ghost urls: seq<string>, ghost before: seq<string>)
      requires i < |sources| && Inv(i) && lost == {} && StartedFrom(hits, i)
      requires hits == BlgHits(cache, sources, count, now)
      requires |cbNames| == |sources| && urls == BlgScriptUrls(sources, count, cbNames)
      requires requests == before + MissedUrls(hits, urls, i)
      modifies this
      ensures Inv(i + 1) && lost == {} && StartedFrom(hits, i + 1)
      ensures requests == before + MissedUrls(hits, urls, i + 1)
    {
      var hit := cache.Get(BlgKey(sources[i], None, count), now);
      ghost var r0 := requests;
      StartSource(i, hit, cbNames[i], hits);
      MissedUrlsStep(before, r0, requests, hits, urls, i);
    }

    ghost predicate StartedFrom(hits: seq<Option<seq<Post>>>, upTo: nat)
      reads this
    {
      Started(hits, got, arrived, pending, upTo)
    }

    /**
     * The body of `fetchBlogger(sources[i], null, count, …)` once its lookup
     * found `hit`: a fresh item calls back at once, a miss injects the script.
     */
    method StartSource(i: nat, hit: Option<seq<Post>>, cbName: string, ghost hits: seq<Option<seq<Post>>>)
      requires i < |sources| && Inv(i) && i < |hits| && hits[i] == hit && StartedFrom(hits, i)
      modifies this
      ensures Inv(i + 1) && lost == old(lost) && StartedFrom(hits, i + 1)
      ensures if hit.Some? then
          && got == old(got) + [i] && arrived == old(arrived) + [hit.value]
          && pending == old(pending) && requests == old(requests)
        else
          && got == old(got) && arrived == old(arrived)
          && pending == old(pending) + {i}
          && requests == old(requests) + [BlgScriptUrl(sources[i], None, count, cbName)]
    {
      assert i !in pending;
      if hit.Some? {
        PartitionStartDelivered(got, pending, lost, i);
        StartedDelivered(hits, got, arrived, pending, i);
        Deliver(i, hit.value);
      } else {
        PartitionStartWaiting(got, pending, lost, i);
        StartedWaiting(hits, got, arrived, pending, i);
        requests := requests + [BlgScriptUrl(sources[i], None, count, cbName)];
        pending := pending + {i};
      }
    }

    /**
     * The slot's callback `(data) => { all = [...all, ...data]; if (++done === n) … }`:
     * append, count, and at the last source sort and render.
     */
    method Deliver(i: nat, d: seq<Post>)
      requires done == |got| == |arrived| < |sources|
      requires all == Gathered(arrived) && view.None?
      modifies this
      ensures got == old(got) + [i] && arrived == old(arrived) + [d] && done == old(done) + 1
      ensures pending == old(pending) && lost == old(lost) && requests == old(requests)
      ensures done < |sources| ==> all == Gathered(arrived) && view.None?
      ensures done == |sources| ==> all == SortByDate(Gathered(arrived)) && view == Some(RenderList(Take(all, count)))
    {
      all := all + d;
      got, arrived := got + [i], arrived + [d];
      assert arrived[..|arrived| - 1] == old(arrived);
      done := done + 1;
      if done == |sources| {
        all := SortByDate(all);
        view := Some(RenderList(Take(all, count)));
      }
    }

    /**
     * The JSONP callback of source `i` runs with the feed's entries. When
     * mapping succeeds the list is stored and passed to the slot; when an
     * entry has no "alternate" link the callback throws before either.
     */
    method OnFeed(i: nat, entries: Option<seq<Entry>>, cache: Cache, now: int, accepted: bool)
      requires Valid() && i in pending
      modifies this, cache
      ensures Valid()
      ensures pending == old(pending) - {i} && requests == old(requests)
      ensures cache.broken == old(cache.broken)
      ensures NormaliseBlogger(sources[i], entries).None? ==>
        && lost == old(lost) + {i} && got == old(got) && arrived == old(arrived)
        && all == old(all) && view == old(view) && done == old(done)
        && cache.entries == old(cache.entries)
      ensures NormaliseBlogger(sources[i], entries).Some? ==>
        var mapped := NormaliseBlogger(sources[i], entries).value;
        && lost == old(lost) && got == old(got) + [i] && arrived == old(arrived) + [mapped]
        && cache.entries == if cache.broken || !accepted then old(cache.entries)
                            else old(cache.entries)[BlgKey(sources[i], None, count) := FeedCache.Entry(mapped, now)]
    {
      var mapped := NormaliseBlogger(sources[i], entries);
      PartitionCallBack(got, pending, lost, |sources|, i);
      pending := pending - {i};
      if mapped.None? {
        lost := lost + {i};
        return;
      }
      cache.Set(BlgKey(sources[i], None, count), mapped.value, now, accepted);
      Deliver(i, mapped.value);
    }

    /**
     * Once rendered, every source has called back, the list holds exactly
     * the posts they passed, newest first, and the container shows its
     * first `count` posts.
     */
    lemma RenderedHasEverySource()
      requires Valid() && view.Some?
      ensures forall i :: 0 <= i < |sources| ==> i in got
      ensures pending == {} && lost == {}
      ensures NewestFirst(all) && multiset(all) == multiset(Gathered(arrived))
      ensures forall k, p :: 0 <= k < |arrived| && p in arrived[k] ==> p in all
      ensures view == Some(RenderList(Take(all, count)))
    {
      PartitionComplete(got, pending, lost, |sources|);
      forall k, p | 0 <= k < |arrived| && p in arrived[k]
        ensures p in all
      {
        GatheredMembers(arrived, p);
        assert p in multiset(Gathered(arrived));
      }
    }

    /** Before every source has called back nothing is rendered, and a source that threw blocks the render. */
    lemma NoRenderWhileWaiting()
      requires Valid()
      ensures view.Some? <==> done == |sources|
      ensures pending != {} || lost != {} ==> view.None?
    {
    }
  }
}
