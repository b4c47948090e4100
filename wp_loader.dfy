/**
 * `fetchWP` and `loadMultiWP` of he/all.js. A fetch first looks the cache
 * up (synchronously, before its first `await`); on a miss it requests the
 * REST URL and, when the response arrives, normalises it and stores it.
 * `loadMultiWP` starts every source's fetch before any response arrives,
 * then merges what `Promise.allSettled` reports.
 */
module WpLoader {
  import opened Wrappers
  import opened JsText
  import opened Posts
  import opened FeedCache
  import opened Normalise

  /**
   * How a REST request ended: the decoded post list, or `None` when `fetch`,
   * `res.json()` or the mapping threw. `at` is the time the response is
   * handled; `accepted` is false when storage refuses the write.
   */
  datatype WpResponse = WpResponse(body: Option<seq<WpPost>>, at: int, accepted: bool)

  /** The REST URL `fetchWP` requests; a category is appended only for a truthy id. */
  function WpUrl(source: string, catId: Option<int>, count: int): string {
    "https://" + source + "/wp-json/wp/v2/posts?per_page=" + IntToString(count)
    + "&_fields=title.rendered,link,date,featured_media,_links,_embedded&_embed=wp:featuredmedia"
    + (if catId.Some? && catId.value != 0 then "&categories=" + IntToString(catId.value) else "")
  }

  /** What a missed fetch resolves to: the normalised list, or `[]` after any failure. */
  function WpFetched(source: string, r: WpResponse): seq<Post> {
    if r.body.Some? then NormaliseWp(source, r.body.value) else []
  }

  /** The value `fetchWP` resolves to, given what the cache held when it started. */
  function WpOutcome(hit: Option<seq<Post>>, source: string, r: WpResponse): seq<Post> {
    if hit.Some? then hit.value else WpFetched(source, r)
  }

  /** The asynchronous half of `fetchWP` after a miss: map, store, resolve. */
  method CompleteWP(cache: Cache, source: string, catId: Option<int>, count: int, r: WpResponse)
    returns (posts: seq<Post>)
    modifies cache
    ensures posts == WpFetched(source, r)
    ensures cache.broken == old(cache.broken)
    ensures cache.entries == if r.body.None? || old(cache.broken) || !r.accepted then old(cache.entries)
                             else old(cache.entries)[WpKey(source, catId, count) := Entry(posts, r.at)]
  {
    if r.body.None? {
      return [];
    }
    posts := NormaliseWp(source, r.body.value);
    cache.Set(WpKey(source, catId, count), posts, r.at, r.accepted);
  }

  /**
   * `fetchWP(source, catId, count)`: a fresh cache item is returned as it
   * is, with no request; otherwise the URL is requested and the response
   * handled as `CompleteWP` does. A failure resolves to `[]` and stores nothing.
   */
  method FetchWP(cache: Cache, source: string, catId: Option<int>, count: int, now: int, r: WpResponse)
    returns (posts: seq<Post>, request: Option<string>)
    modifies cache
    ensures var hit := old(cache.Get(WpKey(source, catId, count), now));
      && posts == WpOutcome(hit, source, r)
      && (request.Some? <==> hit.None?)
      && (request.Some? ==> request.value == WpUrl(source, catId, count))
    ensures cache.broken == old(cache.broken)
    ensures old(cache.Get(WpKey(source, catId, count), now)).Some? || r.body.None? || cache.broken || !r.accepted
            ==> cache.entries == old(cache.entries)
    ensures old(cache.Get(WpKey(source, catId, count), now)).None? && r.body.Some? && !cache.broken && r.accepted
            ==> cache.entries == old(cache.entries)[WpKey(source, catId, count) := Entry(posts, r.at)]
  {
    var hit := cache.Get(WpKey(source, catId, count), now);
    if hit.Some? {
      return hit.value, None;
    }
    request := Some(WpUrl(source, catId, count));
    posts := CompleteWP(cache, source, catId, count, r);
  }

  // ---------------------------------------------------------------- loadMultiWP

  /** What each source's lookup found when the fetches started. */
  function Hits(cache: Cache, srcs: seq<string>, count: int, now: int): (hits: seq<Option<seq<Post>>>)
    reads cache
    ensures |hits| == |srcs|
    ensures forall i :: 0 <= i < |srcs| ==> hits[i] == cache.Get(WpKey(srcs[i], None, count), now)
  {
    seq(|srcs|, i requires 0 <= i < |srcs| reads cache => cache.Get(WpKey(srcs[i], None, count), now))
  }

  /** The settled results, in source order; `fetchWP` never rejects. */
  function Outcomes(hits: seq<Option<seq<Post>>>, srcs: seq<string>, rs: seq<WpResponse>): (r: seq<Settled>)
    requires |hits| == |srcs| == |rs|
    ensures |r| == |srcs|
    ensures forall i :: 0 <= i < |r| ==> r[i] == Fulfilled(WpOutcome(hits[i], srcs[i], rs[i]))
  {
    seq(|srcs|, i requires 0 <= i < |srcs| => Fulfilled(WpOutcome(hits[i], srcs[i], rs[i])))
  }

  /** The URLs requested, one per missed source, in source order. */
  function MissUrls(hits: seq<Option<seq<Post>>>, srcs: seq<string>, count: int): seq<string>
    requires |hits| == |srcs|
  {
    if srcs == [] then []
    else
      var n := |srcs| - 1;
      MissUrls(hits[..n], srcs[..n], count) + (if hits[n].None? then [WpUrl(srcs[n], None, count)] else [])
  }

  /** One cache write: key, stored list and time. */
  datatype Write = Write(key: string, value: seq<Post>, at: int)

  /** The writes of the missed fetches whose response was mapped and accepted, in completion order. */
  function WpWrites(hits: seq<Option<seq<Post>>>, srcs: seq<string>, count: int, rs: seq<WpResponse>): seq<Write>
    requires |hits| == |srcs| == |rs|
  {
    if srcs == [] then []
    else
      var n := |srcs| - 1;
      WpWrites(hits[..n], srcs[..n], count, rs[..n])
      + (if hits[n].None? && rs[n].body.Some? && rs[n].accepted
         then [Write(WpKey(srcs[n], None, count), WpFetched(srcs[n], rs[n]), rs[n].at)] else [])
  }

  function ApplyWrites(entries: map<string, Record>, ws: seq<Write>): map<string, Record> {
    if ws == [] then entries
    else
      var w := ws[|ws| - 1];
      ApplyWrites(entries, ws[..|ws| - 1])[w.key := Entry(w.value, w.at)]
  }

  /** Every fetch runs up to its first await: the lookups, and a request per miss. */
  method StartFetches(cache: Cache, srcs: seq<string>, count: int, now: int)
    returns (hits: seq<Option<seq<Post>>>, requests: seq<string>)
    ensures hits == Hits(cache, srcs, count, now)
    ensures requests == MissUrls(hits, srcs, count)
  {
    hits, requests := [], [];
    ghost var all := Hits(cache, srcs, count, now);
    var i := 0;
    while i < |srcs|
      invariant 0 <= i <= |srcs|
      invariant hits == all[..i]
      invariant requests == MissUrls(hits, srcs[..i], count)
    {
      var hit := cache.Get(WpKey(srcs[i], None, count), now);
      MissUrlsSnoc(all, srcs, count, i);
      assert all[..i + 1] == hits + [hit];
      hits := hits + [hit];
      if hit.None? {
        requests := requests + [WpUrl(srcs[i], None, count)];
      }
      i := i + 1;
    }
    assert srcs[..i] == srcs && all[..i] == all;
  }

  lemma MissUrlsSnoc(hits: seq<Option<seq<Post>>>, srcs: seq<string>, count: int, i: nat)
    requires |hits| == |srcs| && i < |srcs|
    ensures MissUrls(hits[..i + 1], srcs[..i + 1], count)
         == MissUrls(hits[..i], srcs[..i], count) + (if hits[i].None? then [WpUrl(srcs[i], None, count)] else [])
  {
    assert hits[..i + 1][..i] == hits[..i];
    assert srcs[..i + 1][..i] == srcs[..i];
  }

  /** The responses are handled in source order; `allSettled` resolves once all are. */
  method SettleFetches(cache: Cache, hits: seq<Option<seq<Post>>>, srcs: seq<string>, count: int, rs: seq<WpResponse>)
    returns (results: seq<Settled>)
    requires |hits| == |srcs| == |rs|
    modifies cache
    ensures cache.broken == old(cache.broken)
    ensures results == Outcomes(hits, srcs, rs)
    ensures cache.entries == if cache.broken then old(cache.entries)
                             else ApplyWrites(old(cache.entries), WpWrites(hits, srcs, count, rs))
  {
    results := [];
    ghost var start := cache.entries;
    ghost var ws: seq<Write> := [];
    var i := 0;
    while i < |srcs|
      invariant 0 <= i <= |srcs|
      invariant cache.broken == old(cache.broken)
      invariant results == Outcomes(hits[..i], srcs[..i], rs[..i])
      invariant ws == WpWrites(hits[..i], srcs[..i], count, rs[..i])
      invariant cache.entries == if cache.broken then start else ApplyWrites(start, ws)
    {
      OutcomesSnoc(hits, srcs, rs, i);
      WpWritesSnoc(hits, srcs, count, rs, i);
      var posts: seq<Post>;
      if hits[i].Some? {
        posts := hits[i].value;
      } else {
        posts := CompleteWP(cache, srcs[i], None, count, rs[i]);
        if rs[i].body.Some? && rs[i].accepted {
          var w := Write(WpKey(srcs[i], None, count), posts, rs[i].at);
          ApplyWritesSnoc(start, ws, w);
          ws := ws + [w];
        }
      }
      results := results + [Fulfilled(posts)];
      i := i + 1;
    }
    assert hits[..i] == hits && srcs[..i] == srcs && rs[..i] == rs;
  }

  lemma OutcomesSnoc(hits: seq<Option<seq<Post>>>, srcs: seq<string>, rs: seq<WpResponse>, i: nat)
    requires |hits| == |srcs| == |rs| && i < |srcs|
    ensures Outcomes(hits[..i + 1], srcs[..i + 1], rs[..i + 1])
         == Outcomes(hits[..i], srcs[..i], rs[..i]) + [Fulfilled(WpOutcome(hits[i], srcs[i], rs[i]))]
  {
  }

  lemma WpWritesSnoc(hits: seq<Option<seq<Post>>>, srcs: seq<string>, count: int, rs: seq<WpResponse>, i: nat)
    requires |hits| == |srcs| == |rs| && i < |srcs|
    ensures WpWrites(hits[..i + 1], srcs[..i + 1], count, rs[..i + 1])
         == WpWrites(hits[..i], srcs[..i], count, rs[..i])
            + (if hits[i].None? && rs[i].body.Some? && rs[i].accepted
               then [Write(WpKey(srcs[i], None, count), WpFetched(srcs[i], rs[i]), rs[i].at)] else [])
  {
    assert hits[..i + 1][..i] == hits[..i];
    assert srcs[..i + 1][..i] == srcs[..i];
    assert rs[..i + 1][..i] == rs[..i];
  }

  lemma ApplyWritesSnoc(entries: map<string, Record>, ws: seq<Write>, w: Write)
    ensures ApplyWrites(entries, ws + [w]) == ApplyWrites(entries, ws)[w.key := Entry(w.value, w.at)]
  {
    assert (ws + [w])[..|ws|] == ws;
  }

  /**
   * `loadMultiWP(container)` when every response is in. A container without
   * `data-sources` makes the async function reject: nothing is requested and
   * the skeleton stays (`None`). Otherwise the container shows the merge of
   * the sources' outcomes.
   */
  method LoadMultiWP(cache: Cache, sourcesAttr: Option<string>, itemsAttr: Option<string>,
                     rs: seq<WpResponse>, now: int)
    returns (requests: seq<string>, view: Option<View>)
    requires sourcesAttr.Some? ==> |rs| == |SourceList(sourcesAttr.value)|
    modifies cache
    ensures cache.broken == old(cache.broken)
    ensures sourcesAttr.None? ==> view.None? && requests == [] && cache.entries == old(cache.entries)
    ensures sourcesAttr.Some? ==>
      var srcs := SourceList(sourcesAttr.value);
      var count := ParseCount(itemsAttr);
      var hits := old(Hits(cache, srcs, count, now));
      && requests == MissUrls(hits, srcs, count)
      && view == Some(RenderList(Merge(Outcomes(hits, srcs, rs), count)))
      && cache.entries == if cache.broken then old(cache.entries)
                          else ApplyWrites(old(cache.entries), WpWrites(hits, srcs, count, rs))
  {
    if sourcesAttr.None? {
      return [], None;
    }
    var srcs := SourceList(sourcesAttr.value);
    var count := ParseCount(itemsAttr);
    var hits;
    hits, requests := StartFetches(cache, srcs, count, now);
    var results := SettleFetches(cache, hits, srcs, count, rs);
    view := Some(RenderList(Merge(results, count)));
  }

  /**
   * A source whose cache item was fresh contributes exactly that item, and
   * every post of every source is among what the slot merges.
   */
  lemma WpOutcomesMerged(hits: seq<Option<seq<Post>>>, srcs: seq<string>, rs: seq<WpResponse>, i: nat, p: Post)
    requires |hits| == |srcs| == |rs| && i < |srcs|
    ensures hits[i].Some? ==> Outcomes(hits, srcs, rs)[i] == Fulfilled(hits[i].value)
    ensures p in WpOutcome(hits[i], srcs[i], rs[i]) ==> p in FulfilledPosts(Outcomes(hits, srcs, rs))
  {
    FulfilledPostsMembers(Outcomes(hits, srcs, rs), p);
  }
}
