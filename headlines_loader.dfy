/**
 * The loader of assets/js/he-main.js that feeds each `.recHL` element: it
 * builds the Blogger JSONP URL from `data-source`, `data-label` and
 * `data-items`, registers the callback `yzRecHL_<index>`, and on a script
 * error falls back to the unlabelled feed (or, without a label, renders
 * the empty feed).
 */
module HeadlinesLoader {
  import opened Wrappers
  import opened JsText
  import opened JsUri
  import opened BloggerFeed
  import opened Headlines

  /** `dataSource.startsWith("http") ? dataSource : `https://${dataSource}``. */
  function BlogUrl(dataSource: string): (u: string)
    ensures StartsWith(u, "http")
    ensures StartsWith(dataSource, "http") ==> u == dataSource
    ensures !StartsWith(dataSource, "http") ==> u == "https://" + dataSource
  {
    if StartsWith(dataSource, "http") then dataSource else "https://" + dataSource
  }

  /** `url.replace(/\/$/, "")`: one trailing slash is removed. */
  function StripTrailingSlash(u: string): (r: string)
    ensures r == u || r + "/" == u
    ensures u != [] && u[|u| - 1] == '/' ==> r + "/" == u
    ensures (u == [] || u[|u| - 1] != '/') ==> r == u
  {
    if u != [] && u[|u| - 1] == '/' then u[..|u| - 1] else u
  }

  /** `label ? `/-/${encodeURIComponent(label)}` : ""`. */
  function LabelSegment(dataLabel: Option<string>): string {
    if Truthy(dataLabel) then "/-/" + EncodeUriComponent(dataLabel.value) else ""
  }

  /** The feed path, `${blogUrl.replace(/\/$/, "")}/feeds/posts/default`. */
  function FeedPath(blogUrl: string): string {
    StripTrailingSlash(blogUrl) + "/feeds/posts/default"
  }

  /** The query both URLs share. */
  function FeedQuery(items: Option<string>, cbName: string): string {
    "?orderby=published&alt=json-in-script&max-results=" + AttrText(items) + "&callback=" + cbName
  }

  /** The feed URL with the label segment, as built for the first request. */
  function ScriptUrl(blogUrl: string, dataLabel: Option<string>, items: Option<string>, cbName: string): string {
    FeedPath(blogUrl) + LabelSegment(dataLabel) + FeedQuery(items, cbName)
  }

  /** The fallback URL: the same feed without a label. */
  function RecentUrl(blogUrl: string, items: Option<string>, cbName: string): string {
    FeedPath(blogUrl) + FeedQuery(items, cbName)
  }

  /**
   * The first URL is the fallback URL with the label segment inserted
   * after the feed path; without a label the two are the same URL.
   */
  lemma ScriptUrlInsertsLabel(blogUrl: string, dataLabel: Option<string>, items: Option<string>, cbName: string)
    ensures var base := FeedPath(blogUrl);
      && |base| <= |RecentUrl(blogUrl, items, cbName)|
      && RecentUrl(blogUrl, items, cbName)[..|base|] == base
      && ScriptUrl(blogUrl, dataLabel, items, cbName)
           == base + LabelSegment(dataLabel) + RecentUrl(blogUrl, items, cbName)[|base|..]
    ensures !Truthy(dataLabel) ==> ScriptUrl(blogUrl, dataLabel, items, cbName) == RecentUrl(blogUrl, items, cbName)
  {
    var base, tail := FeedPath(blogUrl), FeedQuery(items, cbName);
    assert (base + tail)[|base|..] == tail;
    assert (base + tail)[..|base|] == base;
    if !Truthy(dataLabel) {
      assert base + "" == base;
    }
  }

  /**
   * The label segment is present iff the label is set; it holds no path or
   * query delimiter and percent-decodes to the label's UTF-8 bytes.
   */
  lemma LabelSegmentRecoverable(dataLabel: Option<string>)
    ensures LabelSegment(dataLabel) == "" <==> !Truthy(dataLabel)
    ensures Truthy(dataLabel) ==>
      var seg := LabelSegment(dataLabel);
      var enc := seg[3..];
      && seg == "/-/" + enc
      && (forall i :: 0 <= i < |enc| ==> !UrlDelimiter(enc[i]))
      && PercentDecode(enc) == Some(Utf8String(dataLabel.value))
  {
    if Truthy(dataLabel) {
      var enc := EncodeUriComponent(dataLabel.value);
      assert ("/-/" + enc)[3..] == enc;
      EncodedHasNoDelimiter(Utf8String(dataLabel.value));
      PercentRoundTrip(Utf8String(dataLabel.value));
    }
  }

  /** `yzRecHL_${index}`. */
  function CallbackName(index: nat): string {
    "yzRecHL_" + NatToString(index)
  }

  /** The attributes and names one `.recHL` element's loader works with. */
  datatype Widget = Widget(items: Option<string>, dataLabel: Option<string>, blogUrl: string, cbName: string)

  /** The `forEach` body's first step: an element without a truthy `data-source` is skipped. */
  function WidgetOf(items: Option<string>, dataLabel: Option<string>, dataSource: Option<string>, index: nat): (w: Option<Widget>)
    ensures w.Some? <==> Truthy(dataSource)
    ensures w.Some? ==> w.value.cbName == CallbackName(index) && StartsWith(w.value.blogUrl, "http")
  {
    if !Truthy(dataSource) then None
    else Some(Widget(items, dataLabel, BlogUrl(dataSource.value), CallbackName(index)))
  }

  /** The scripts injected so far and what the element shows (`None`: untouched). */
  datatype LoadState = LoadState(requests: seq<string>, view: Option<HLView>)

  function Initial(w: Widget): LoadState {
    LoadState([ScriptUrl(w.blogUrl, w.dataLabel, w.items, w.cbName)], None)
  }

  /**
   * `t.onerror` as written: with a label, load the recent feed under the
   * same callback name (whose script gets the same handler); without one,
   * render the empty feed.
   */
  function AfterError(w: Widget, st: LoadState): LoadState {
    if Truthy(w.dataLabel) then st.(requests := st.requests + [RecentUrl(w.blogUrl, w.items, w.cbName)])
    else st.(view := HeadlinesView(Some([]), w.items))
  }

  function AfterErrors(w: Widget, st: LoadState, k: nat): LoadState {
    if k == 0 then st else AfterError(w, AfterErrors(w, st, k - 1))
  }

  /** Without a label one error renders the empty container and injects nothing. */
  lemma UnlabelledErrorRendersEmpty(w: Widget)
    requires !Truthy(w.dataLabel)
    ensures AfterError(w, Initial(w)) == LoadState(Initial(w).requests, Some(HLEmpty))
  {
  }

  /** With a label, an error injects the unlabelled script and leaves the element as it is. */
  lemma LabelledErrorRetries(w: Widget, st: LoadState)
    requires Truthy(w.dataLabel)
    ensures AfterError(w, st) == LoadState(st.requests + [RecentUrl(w.blogUrl, w.items, w.cbName)], st.view)
  {
  }

  /**
   * With a label, `k` failed loads leave the element untouched and have
   * injected `k + 1` scripts: the retry has no bound.
   */
  lemma {:induction false} ErrorsNeverSettle(w: Widget, k: nat)
    requires Truthy(w.dataLabel)
    ensures AfterErrors(w, Initial(w), k).view.None?
    ensures |AfterErrors(w, Initial(w), k).requests| == k + 1
    ensures forall j :: 1 <= j <= k ==> AfterErrors(w, Initial(w), k).requests[j] == RecentUrl(w.blogUrl, w.items, w.cbName)
  {
    LabelledErrorsAppend(w, Initial(w), k);
  }

  /** From any state, `k` errors on a labelled element append `k` unlabelled scripts and touch nothing else. */
  lemma {:induction false} LabelledErrorsAppend(w: Widget, st: LoadState, k: nat)
    requires Truthy(w.dataLabel)
    ensures var r := AfterErrors(w, st, k);
      && r.view == st.view
      && |r.requests| == |st.requests| + k
      && r.requests[..|st.requests|] == st.requests
      && forall j :: |st.requests| <= j < |r.requests| ==> r.requests[j] == RecentUrl(w.blogUrl, w.items, w.cbName)
  {
    if k > 0 {
      LabelledErrorsAppend(w, st, k - 1);
      LabelledErrorRetries(w, AfterErrors(w, st, k - 1));
    }
  }

  /** The fallback as evidently intended: one retry without the label, then the empty feed. */
  datatype BoundedState = BoundedState(requests: seq<string>, view: Option<HLView>, retried: bool)

  function AfterErrorBounded(w: Widget, st: BoundedState): BoundedState {
    if Truthy(w.dataLabel) && !st.retried then
      st.(requests := st.requests + [RecentUrl(w.blogUrl, w.items, w.cbName)], retried := true)
    else st.(view := Some(HLEmpty))
  }

  function AfterErrorsBounded(w: Widget, st: BoundedState, k: nat): BoundedState {
    if k == 0 then st else AfterErrorBounded(w, AfterErrorsBounded(w, st, k - 1))
  }

  /**
   * With one retry at most, the second failed load ends in the empty
   * container, after at most two scripts; without a label the first does.
   */
  lemma {:induction false} BoundedErrorsSettle(w: Widget, k: nat)
    ensures var st := AfterErrorsBounded(w, BoundedState(Initial(w).requests, None, false), k);
      && (k >= 1 && Truthy(w.dataLabel) ==>
            && st.requests == Initial(w).requests + [RecentUrl(w.blogUrl, w.items, w.cbName)]
            && st.retried
            && st.view == if k >= 2 then Some(HLEmpty) else None)
      && (k >= 1 && !Truthy(w.dataLabel) ==> st == BoundedState(Initial(w).requests, Some(HLEmpty), false))
  {
    if k > 1 {
      BoundedErrorsSettle(w, k - 1);
    }
  }

  /** One `.recHL` element and the scripts its loader injects. */
  class RecHL {
    const widget: Widget
    var requests: seq<string>
    var view: Option<HLView>

    function State(): LoadState
      reads this
    {
      LoadState(requests, view)
    }

    /** `loadFeed(scriptUrl, cbName)`. */
    constructor (w: Widget)
      ensures widget == w && State() == Initial(w)
    {
      widget := w;
      requests := [ScriptUrl(w.blogUrl, w.dataLabel, w.items, w.cbName)];
      view := None;
    }

    /** `window[cbName](data)`: the feed's entries (`None` when `feed` or `feed.entry` is missing). */
    method OnData(entries: Option<seq<Entry>>)
      modifies this
      ensures requests == old(requests)
      ensures view == if HeadlinesView(entries, widget.items).Some? then HeadlinesView(entries, widget.items) else old(view)
    {
      var v := RenderHeadlines(entries, widget.items);
      if v.Some? {
        view := v;
      }
    }

    /** `t.onerror` of the script injected last. */
    method OnError()
      modifies this
      ensures State() == AfterError(widget, old(State()))
    {
      if Truthy(widget.dataLabel) {
        requests := requests + [RecentUrl(widget.blogUrl, widget.items, widget.cbName)];
      } else {
        view := RenderHeadlines(Some([]), widget.items);
      }
    }
  }
}
