/**
 * The two mapping lambdas of he/all.js that turn a WordPress post (read
 * with `_embed`) or a Blogger entry into a `Post`, with their thumbnail
 * fallback chains.
 */
module Normalise {
  import opened Wrappers
  import opened JsText
  import opened Posts
  import opened BloggerFeed

  /** The image used when a post has no usable thumbnail. */
  const Placeholder: string := "https://placehold.co/70x50"

  /**
   * One `_embedded['wp:featuredmedia']` item: `media_details.sizes.thumbnail.source_url`
   * and `source_url`, each when present.
   */
  datatype WpMedia = WpMedia(thumbnailUrl: Option<string>, sourceUrl: Option<string>)

  /** A WordPress post: `title.rendered`, `link`, `date`, and its embedded featured media (possibly none). */
  datatype WpPost = WpPost(title: string, link: string, date: int, featuredMedia: seq<WpMedia>)

  /**
   * `thumbnail source_url || full source_url || placeholder`, read from the
   * first featured-media item. Never empty.
   */
  function WpThumb(p: WpPost): (img: string)
    ensures img != ""
  {
    if p.featuredMedia != [] && Truthy(p.featuredMedia[0].thumbnailUrl) then p.featuredMedia[0].thumbnailUrl.value
    else if p.featuredMedia != [] && Truthy(p.featuredMedia[0].sourceUrl) then p.featuredMedia[0].sourceUrl.value
    else Placeholder
  }

  /** The three links of the WordPress fallback chain, and the placeholder for a post without media. */
  lemma WpThumbChain(p: WpPost)
    ensures p.featuredMedia == [] ==> WpThumb(p) == Placeholder
    ensures p.featuredMedia != [] && Truthy(p.featuredMedia[0].thumbnailUrl)
            ==> WpThumb(p) == p.featuredMedia[0].thumbnailUrl.value
    ensures p.featuredMedia != [] && !Truthy(p.featuredMedia[0].thumbnailUrl) && Truthy(p.featuredMedia[0].sourceUrl)
            ==> WpThumb(p) == p.featuredMedia[0].sourceUrl.value
    ensures WpThumb(p) == Placeholder || exists m :: m in p.featuredMedia[..1] && (m.thumbnailUrl == Some(WpThumb(p)) || m.sourceUrl == Some(WpThumb(p)))
  {
  }

  function WpToPost(source: string, p: WpPost): Post {
    Post(p.title, p.link, p.date, source, WpThumb(p))
  }

  /** `posts.map(...)` in `fetchWP`: one post per WordPress post, in order, tagged with the source. */
  function NormaliseWp(source: string, posts: seq<WpPost>): (r: seq<Post>)
    ensures |r| == |posts|
    ensures forall i :: 0 <= i < |r| ==> r[i] == WpToPost(source, posts[i])
  {
    seq(|posts|, i requires 0 <= i < |posts| => WpToPost(source, posts[i]))
  }

  // ---------------------------------------------------------------- Blogger thumbnails

  /** End of a `/s<digits>-c/` segment that starts at `i`, if one does (`\d+` is greedy). */
  function SizeSegmentAt(u: string, i: nat): (r: Option<nat>)
    ensures r.Some? ==> i + 6 <= r.value <= |u|
    ensures r.Some? ==> u[i] == '/' && u[i + 1] == 's' && u[r.value - 3..r.value] == "-c/"
  {
    if i + 2 <= |u| && u[i] == '/' && u[i + 1] == 's' then
      var k := DigitRun(u[i + 2..], 10);
      var e := i + 2 + k;
      if k >= 1 && e + 3 <= |u| && u[e..e + 3] == "-c/" then Some(e + 3) else None
    else None
  }

  /** Every `/s<digits>-c/` at `i` is recognised, with its end. */
  lemma SegmentPresent(u: string, i: nat, k: nat)
    requires 1 <= k && i + 2 + k + 3 <= |u| && u[i] == '/' && u[i + 1] == 's'
    requires AllRadixDigits(u[i + 2..i + 2 + k], 10) && u[i + 2 + k..i + 2 + k + 3] == "-c/"
    ensures SizeSegmentAt(u, i) == Some(i + 2 + k + 3)
  {
    var tail := u[i + 2..];
    var d := DigitRun(tail, 10);
    assert tail[k] == '-' by {
      assert u[i + 2 + k..i + 2 + k + 3][0] == u[i + 2 + k];
    }
    assert forall j :: 0 <= j < k ==> tail[j] == u[i + 2..i + 2 + k][j];
    assert !IsRadixDigit(tail[k], 10);
    assert d == k;
  }

  /** Between `/s` and `-c/` a segment holds only decimal digits, and at least one. */
  lemma SegmentDigits(u: string, i: nat)
    requires SizeSegmentAt(u, i).Some?
    ensures var e := SizeSegmentAt(u, i).value;
      i + 2 < e - 3 && AllRadixDigits(u[i + 2..e - 3], 10) && DigitRun(u[i + 2..], 10) == e - 3 - (i + 2)
  {
    var k := DigitRun(u[i + 2..], 10);
    assert u[i + 2..i + 2 + k] == u[i + 2..][..k];
  }

  /** The first `/s<digits>-c/` segment at or after `from`: its start and end. */
  function FirstSizeSegment(u: string, from: nat): (r: Option<(nat, nat)>)
    ensures r.Some? ==> from <= r.value.0 && SizeSegmentAt(u, r.value.0) == Some(r.value.1)
    ensures r.Some? ==> forall k :: from <= k < r.value.0 ==> SizeSegmentAt(u, k).None?
    ensures r.None? ==> forall k :: from <= k ==> SizeSegmentAt(u, k).None?
    decreases |u| - from
  {
    if from >= |u| then None
    else match SizeSegmentAt(u, from)
      case Some(e) => Some((from, e))
      case None => FirstSizeSegment(u, from + 1)
  }

  /** `url.replace(/\/s\d+-c\//, '/s150-c/')`: the first size segment asks for 150px. */
  function ResizeThumb(u: string): string {
    match FirstSizeSegment(u, 0)
    case None => u
    case Some((i, e)) => u[..i] + "/s150-c/" + u[e..]
  }

  /** Within a segment, `/` occurs only at its two ends. */
  lemma SegmentSlashes(u: string, i: nat, e: nat, p: nat)
    requires SizeSegmentAt(u, i) == Some(e)
    requires i < p < e - 1
    ensures u[p] != '/'
  {
    SegmentDigits(u, i);
    if p == i + 1 {
    } else if p < e - 3 {
      assert u[p] == u[i + 2..e - 3][p - i - 2];
      assert IsRadixDigit(u[p], 10);
    } else {
      assert u[p] == u[e - 3..e][p - e + 3];
    }
  }

  /** The digit run is decided by the characters up to the first non-digit. */
  lemma {:induction false} DigitRunLocal(x: string, y: string, d: nat)
    requires DigitRun(x, 10) == d && d < |x| && d < |y| && x[..d + 1] == y[..d + 1]
    ensures DigitRun(y, 10) == d
  {
    assert x[d] == y[d];
    if d > 0 {
      assert x[0] == y[0];
      assert x[1..][..d] == y[1..][..d];
      DigitRunLocal(x[1..], y[1..], d - 1);
    }
  }

  /** Whether a segment starts at `k` depends only on the characters of that segment. */
  lemma SegmentLocal(u: string, w: string, k: nat, e: nat)
    requires SizeSegmentAt(w, k) == Some(e)
    requires e <= |u| && u[..e] == w[..e]
    ensures SizeSegmentAt(u, k) == Some(e)
  {
    var d := e - 3 - (k + 2);
    assert u[k] == w[k] && u[k + 1] == w[k + 1];
    var x, y := w[k + 2..], u[k + 2..];
    SegmentDigits(w, k);
    assert x[..d + 1] == y[..d + 1] by {
      assert x[..d + 1] == w[k + 2..e - 2];
      assert y[..d + 1] == u[k + 2..e - 2];
    }
    DigitRunLocal(x, y, d);
    assert u[e - 3..e] == w[e - 3..e];
  }

  lemma DigitRunOf150(tail: string)
    ensures DigitRun("150-c/" + tail, 10) == 3
  {
    var x := "150-c/" + tail;
    assert x[1..][1..][1..][0] == '-';
    assert DigitRun(x[1..][1..][1..], 10) == 0;
  }

  /** The rewritten URL has a size segment exactly where the rewrite put `/s150-c/`. */
  lemma ResizedSegment(u: string, i: nat, e: nat)
    requires i + 6 <= e <= |u|
    ensures var w := u[..i] + "/s150-c/" + u[e..]; SizeSegmentAt(w, i) == Some(i + 8)
  {
    var w := u[..i] + "/s150-c/" + u[e..];
    assert w[i..] == "/s150-c/" + u[e..];
    assert w[i + 2..] == "150-c/" + u[e..];
    DigitRunOf150(u[e..]);
    assert w[i + 5..i + 8] == "-c/";
  }

  /** A segment starting before a `/` at `i` ends at `i + 1` at the latest. */
  lemma SegmentEndsBySlash(w: string, k: nat, e: nat, i: nat)
    requires SizeSegmentAt(w, k) == Some(e) && k < i < |w| && w[i] == '/'
    ensures e <= i + 1
  {
    if e > i + 1 {
      SegmentSlashes(w, k, e, i);
    }
  }

  /** The rewrite keeps the URL up to and including the segment's leading `/`. */
  lemma RewritePrefix(u: string, i: nat, e: nat)
    requires SizeSegmentAt(u, i) == Some(e)
    ensures var w := u[..i] + "/s150-c/" + u[e..]; |w| > i && u[..i + 1] == w[..i + 1]
  {
    var w := u[..i] + "/s150-c/" + u[e..];
    forall j | 0 <= j <= i
      ensures u[j] == w[j]
    {
      if j < i {
        assert w[j] == u[..i][j];
      }
    }
  }

  /** No segment of the rewritten URL starts before the rewritten one. */
  lemma NoEarlierSegment(u: string, w: string, i: nat, e: nat, k: nat)
    requires FirstSizeSegment(u, 0) == Some((i, e)) && k < i
    requires w == u[..i] + "/s150-c/" + u[e..]
    ensures SizeSegmentAt(w, k).None?
  {
    assert SizeSegmentAt(u, k).None?;
    RewritePrefix(u, i, e);
    if SizeSegmentAt(w, k).Some? {
      var e' := SizeSegmentAt(w, k).value;
      SegmentEndsBySlash(w, k, e', i);
      assert u[..e'] == w[..e'] by {
        assert u[..e'] == u[..i + 1][..e'];
        assert w[..e'] == w[..i + 1][..e'];
      }
      SegmentLocal(u, w, k, e');
    }
  }

  /**
   * Rewriting the size segment twice is rewriting it once: the rewritten
   * URL's first size segment is the `/s150-c/` the rewrite put there.
   */
  lemma ResizeThumbIdempotent(u: string)
    ensures ResizeThumb(ResizeThumb(u)) == ResizeThumb(u)
  {
    match FirstSizeSegment(u, 0)
    case None =>
    case Some((i, e)) =>
      var w := u[..i] + "/s150-c/" + u[e..];
      ResizedSegment(u, i, e);
      forall k | 0 <= k < i
        ensures SizeSegmentAt(w, k).None?
      {
        NoEarlierSegment(u, w, i, e, k);
      }
      FirstSizeSegmentIs(w, 0, i, i + 8);
      RewriteKeeps(u, i, e);
  }

  /** The first segment is the one with none before it. */
  lemma FirstSizeSegmentIs(w: string, from: nat, i: nat, e: nat)
    requires from <= i && SizeSegmentAt(w, i) == Some(e)
    requires forall k :: from <= k < i ==> SizeSegmentAt(w, k).None?
    ensures FirstSizeSegment(w, from) == Some((i, e))
  {
  }

  /** Writing `/s150-c/` over the segment it already holds leaves the URL as it is. */
  lemma RewriteKeeps(u: string, i: nat, e: nat)
    requires i + 6 <= e <= |u|
    ensures var w := u[..i] + "/s150-c/" + u[e..]; |w| >= i + 8 && w[..i] + "/s150-c/" + w[i + 8..] == w
  {
    var w := u[..i] + "/s150-c/" + u[e..];
    assert w[..i] == u[..i];
    assert w[i + 8..] == u[e..];
  }

  /** `entry.media$thumbnail ? url.replace(...) : placeholder`. */
  function BloggerImg(e: Entry): string {
    if e.thumbnail.Some? then ResizeThumb(e.thumbnail.value) else Placeholder
  }

  function BloggerToPost(source: string, e: Entry): Post
    requires AlternateHref(e.links).Some?
  {
    Post(e.title, AlternateHref(e.links).value, e.published, source, BloggerImg(e))
  }

  /**
   * `entries.map(...)` in `fetchBlogger`'s callback. An entry without an
   * "alternate" link makes the lambda throw, so the whole mapping fails.
   */
  function MapEntries(source: string, es: seq<Entry>): (r: Option<seq<Post>>)
    ensures r.Some? <==> forall i :: 0 <= i < |es| ==> AlternateHref(es[i].links).Some?
    ensures r.Some? ==> |r.value| == |es|
    ensures r.Some? ==> forall i :: 0 <= i < |es| ==> r.value[i] == BloggerToPost(source, es[i])
  {
    if es == [] then Some([])
    else if AlternateHref(es[0].links).None? then None
    else
      var rest := MapEntries(source, es[1..]);
      assert forall i :: 1 <= i < |es| ==> es[i] == es[1..][i - 1];
      if rest.None? then None else Some([BloggerToPost(source, es[0])] + rest.value)
  }

  /** `(data.feed.entry || []).map(...)`: a feed without entries maps to the empty list. */
  function NormaliseBlogger(source: string, entries: Option<seq<Entry>>): Option<seq<Post>> {
    MapEntries(source, if entries.Some? then entries.value else [])
  }
}
