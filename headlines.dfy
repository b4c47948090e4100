/**
 * `yzRecHL(data, element)` of assets/js/he-main.js: the recHL widget's
 * renderer. It turns the first `data-items` entries of a Blogger feed into
 * cards (thumbnail, linked title, optional label link, date) in feed order,
 * or shows an empty container when the feed has no entries.
 */
module Headlines {
  import opened Wrappers
  import opened JsText
  import opened BloggerFeed

  /** The inline SVG shown when an entry has no image at all. */
  const NoImageSvg: string := "data:image/svg+xml,%3Csvg xmlns='http://www.w3.org/2000/svg' width='300' height='200'%3E%3Crect fill='%23ddd' width='300' height='200'/%3E%3Ctext x='50%25' y='50%25' text-anchor='middle' dy='.3em' fill='%23999' font-family='Arial'%3ENo Image%3C/text%3E%3C/svg%3E"

  /** `contentText.match(/<img.*?src="(.*?)"/)[1]`: the first `src="…"` value of the first `<img`. */
  function FirstImgSrc(text: string): (r: Option<string>)
    ensures IndexOf(text, "<img", 0).None? ==> r.None?
    ensures r.Some? ==> '"' !in r.value
    ensures r.Some? ==> (
      && IndexOf(text, "<img", 0).Some?
      && var p := IndexOf(text, "<img", 0).value;
         exists q :: p + 4 <= q && OccursAt(text, "src=\"" + r.value + "\"", q)
           && forall q' :: p + 4 <= q' < q ==> !OccursAt(text, "src=\"", q'))
  {
    match IndexOf(text, "<img", 0)
    case None => None
    case Some(p) =>
      match IndexOf(text, "src=\"", p + 4)
      case None => None
      case Some(q) =>
        match IndexOf(text, "\"", q + 5)
        case None => None
        case Some(e) =>
          var v := text[q + 5..e];
          assert '"' !in v by {
            forall k | q + 5 <= k < e ensures text[k] != '"' {
              assert !OccursAt(text, "\"", k);
            }
          }
          assert text[q..e + 1] == "src=\"" + v + "\"" by {
            assert OccursAt(text, "src=\"", q) && OccursAt(text, "\"", e);
            assert text[q..e + 1] == text[q..q + 5] + text[q + 5..e] + text[e..e + 1];
          }
          assert OccursAt(text, "src=\"" + v + "\"", q);
          Some(v)
  }

  /**
   * An `<img`, then a `src="` after it, then a closing `"`: the capture
   * finds something (not necessarily this `src`, since an earlier one wins).
   */
  lemma FirstImgPresent(text: string, p: nat, q: nat, e: nat)
    requires OccursAt(text, "<img", p) && p + 4 <= q && OccursAt(text, "src=\"", q)
    requires q + 5 <= e < |text| && text[e] == '"'
    ensures FirstImgSrc(text).Some?
  {
    var p0 := IndexOf(text, "<img", 0).value;
    var q0 := IndexOf(text, "src=\"", p0 + 4).value;
    assert text[e..e + 1] == "\"";
    assert OccursAt(text, "\"", e);
    assert IndexOf(text, "\"", q0 + 5).Some?;
  }

  /** The source of an image tag at the start of the text is what the capture finds. */
  lemma FirstImgSrcOfTag(u: string, after: string)
    requires '"' !in u
    ensures FirstImgSrc("<img src=\"" + u + "\"" + after) == Some(u)
  {
    var text := "<img src=\"" + u + "\"" + after;
    assert OccursAt(text, "<img", 0);
    assert IndexOf(text, "<img", 0) == Some(0);
    assert OccursAt(text, "src=\"", 5);
    assert text[4] == ' ' && text[4..9][0] == text[4];
    assert IndexOf(text, "src=\"", 4) == Some(5);
    assert text[10..10 + |u|] == u;
    forall k | 10 <= k < 10 + |u|
      ensures !OccursAt(text, "\"", k)
    {
      assert text[k] == u[k - 10];
    }
    assert OccursAt(text, "\"", 10 + |u|);
    assert IndexOf(text, "\"", 10) == Some(10 + |u|);
  }

  /** `e.content?.$t || e.summary?.$t || ""`. */
  function ContentText(e: Entry): string {
    if Truthy(e.content) then e.content.value
    else if Truthy(e.summary) then e.summary.value
    else ""
  }

  /** A card's image: a URL found in the entry, or the inline SVG placeholder. */
  datatype Thumb = ImgUrl(url: string) | NoImage

  /** The `src` the card's `<img>` gets. */
  function ThumbSrc(t: Thumb): string {
    match t
    case ImgUrl(u) => u
    case NoImage => NoImageSvg
  }

  /**
   * The thumbnail chain: `media$thumbnail.url` when non-empty, else a
   * non-empty `<img src>` capture of the content text, else the SVG.
   * (The result then goes through `updateImageUrls`, which is not part of
   * this model.)
   */
  function ResolveThumb(e: Entry): (img: Thumb)
    ensures img.ImgUrl? ==> img.url != ""
  {
    if Truthy(e.thumbnail) then ImgUrl(e.thumbnail.value)
    else
      var m := FirstImgSrc(ContentText(e));
      if m.Some? && m.value != "" then ImgUrl(m.value) else NoImage
  }

  /** Each link of the chain wins exactly when the earlier ones are missing or empty; the `src` is never empty. */
  lemma ResolveThumbChain(e: Entry)
    ensures Truthy(e.thumbnail) ==> ResolveThumb(e) == ImgUrl(e.thumbnail.value)
    ensures !Truthy(e.thumbnail) && FirstImgSrc(ContentText(e)).Some? && FirstImgSrc(ContentText(e)).value != ""
            ==> ResolveThumb(e) == ImgUrl(FirstImgSrc(ContentText(e)).value)
    ensures !Truthy(e.thumbnail) && (FirstImgSrc(ContentText(e)).None? || FirstImgSrc(ContentText(e)).value == "")
            ==> ResolveThumb(e) == NoImage
    ensures !Truthy(e.content) && !Truthy(e.summary) && !Truthy(e.thumbnail) ==> ResolveThumb(e) == NoImage
    ensures ThumbSrc(ResolveThumb(e)) != ""
  {
    if !Truthy(e.content) && !Truthy(e.summary) {
      assert ContentText(e) == "";
    }
  }

  /** The label link `<a href="/search/label/{c}?&max-results={s}">{c}</a>`. */
  datatype LabelLink = LabelLink(href: string, text: string)

  /** One rendered card; `published` is the `title` of its `<time>`. */
  datatype Card = Card(link: string, img: Thumb, title: string, published: int, tag: Option<LabelLink>)

  /**
   * What the container shows: the cards in `<div class="cont flex wrap">…</div>`,
   * or, for a feed without entries, `<div class="cont flex wrap"></div></div>`.
   */
  datatype HLView = HLCards(cards: seq<Card>) | HLEmpty

  function LabelHref(c: string, items: Option<string>): string {
    "/search/label/" + c + "?&max-results=" + AttrText(items)
  }

  /**
   * The card for one entry. `None` when rendering it throws: no "alternate"
   * link, or a `category` array without a first element.
   */
  function CardOf(e: Entry, items: Option<string>): (r: Option<Card>)
    ensures r.None? <==> AlternateHref(e.links).None? || e.category == Some([])
    ensures r.Some? ==> r.value.img == ResolveThumb(e) && r.value.link == AlternateHref(e.links).value
                        && r.value.title == e.title && r.value.published == e.published
    ensures r.Some? ==> (r.value.tag.Some? <==> e.category.Some? && e.category.value[0] != "")
    ensures r.Some? && r.value.tag.Some? ==>
              r.value.tag.value == LabelLink(LabelHref(e.category.value[0], items), e.category.value[0])
  {
    var link := AlternateHref(e.links);
    if link.None? || e.category == Some([]) then None
    else
      var c := if e.category.Some? then e.category.value[0] else "";
      var tag := if c != "" then Some(LabelLink(LabelHref(c, items), c)) else None;
      Some(Card(link.value, ResolveThumb(e), e.title, e.published, tag))
  }

  /** `t >= s` with `s` the `data-items` attribute: compared as numbers, NaN skips nothing. */
  predicate Skipped(t: nat, cap: Num) {
    cap.Finite? && t >= cap.v
  }

  /** How many leading entries survive the cap; every later one is skipped. */
  function Kept(n: nat, cap: Num): (k: nat)
    ensures k <= n
    ensures forall t: nat :: t < n ==> (t < k <==> !Skipped(t, cap))
  {
    match cap
    case NaN => n
    case Finite(v) => if v <= 0 then 0 else if v < n then v else n
  }

  /** The cards of `es` in order, or `None` when one of them throws. */
  function CardsOf(es: seq<Entry>, items: Option<string>): Option<seq<Card>> {
    if es == [] then Some([])
    else
      var init := CardsOf(es[..|es| - 1], items);
      var last := CardOf(es[|es| - 1], items);
      if init.None? || last.None? then None else Some(init.value + [last.value])
  }

  /** `cards` is one card per entry of `es`, in order. */
  ghost predicate CardsFor(es: seq<Entry>, cards: seq<Card>, items: Option<string>) {
    |cards| == |es| && forall j :: 0 <= j < |es| ==> CardOf(es[j], items) == Some(cards[j])
  }

  lemma CardsForSnoc(es: seq<Entry>, cards: seq<Card>, e: Entry, c: Card, items: Option<string>)
    requires CardsFor(es, cards, items) && CardOf(e, items) == Some(c)
    ensures CardsFor(es + [e], cards + [c], items)
  {
    forall j | 0 <= j < |es| + 1
      ensures CardOf((es + [e])[j], items) == Some((cards + [c])[j])
    {
      if j < |es| {
        assert (es + [e])[j] == es[j] && (cards + [c])[j] == cards[j];
      }
    }
  }

  /** The entries render iff each one does, and then there is one card per entry, in order. */
  lemma {:induction false} CardsOfSome(es: seq<Entry>, items: Option<string>)
    ensures CardsOf(es, items).Some? <==> forall j :: 0 <= j < |es| ==> CardOf(es[j], items).Some?
    ensures CardsOf(es, items).Some? ==> CardsFor(es, CardsOf(es, items).value, items)
  {
    if es != [] {
      var n := |es| - 1;
      CardsOfSome(es[..n], items);
      assert es == es[..n] + [es[n]];
      var init := CardsOf(es[..n], items);
      var last := CardOf(es[n], items);
      if init.Some? && last.Some? {
        CardsForSnoc(es[..n], init.value, es[n], last.value, items);
      }
      if CardsOf(es, items).None? {
        if init.None? {
          var j :| 0 <= j < n && CardOf(es[..n][j], items).None?;
          assert es[..n][j] == es[j];
        }
      } else {
        assert forall j :: 0 <= j < n ==> es[..n][j] == es[j];
      }
    }
  }

  /** One more entry: its card is appended, or the whole rendering throws. */
  lemma CardsOfExtend(es: seq<Entry>, t: nat, items: Option<string>)
    requires t < |es|
    ensures CardsOf(es[..t + 1], items)
         == if CardsOf(es[..t], items).None? || CardOf(es[t], items).None? then None
            else Some(CardsOf(es[..t], items).value + [CardOf(es[t], items).value])
  {
    assert es[..t + 1][..t] == es[..t];
  }

  /** An entry that throws makes every longer prefix throw. */
  lemma CardsOfThrowsAt(es: seq<Entry>, n: nat, t: nat, items: Option<string>)
    requires t < n <= |es| && CardOf(es[t], items).None?
    ensures CardsOf(es[..n], items).None?
  {
    CardsOfSome(es[..n], items);
    assert es[..n][t] == es[t];
  }

  /** What `yzRecHL` leaves in the container, or `None` when it throws before writing. */
  function HeadlinesView(feed: Option<seq<Entry>>, items: Option<string>): Option<HLView> {
    if feed.None? || feed.value == [] then Some(HLEmpty)
    else
      var cards := CardsOf(feed.value[..Kept(|feed.value|, AttrNumber(items))], items);
      if cards.None? then None else Some(HLCards(cards.value))
  }

  /**
   * The empty container exactly for a missing or empty entry list;
   * otherwise one card per entry the cap keeps, in feed order (so at most
   * `data-items` of them), or nothing at all when one of those entries throws.
   */
  lemma HeadlinesCap(feed: Option<seq<Entry>>, items: Option<string>)
    ensures HeadlinesView(feed, items) == Some(HLEmpty) <==> feed.None? || feed.value == []
    ensures feed.Some? && feed.value != [] ==>
      var n := Kept(|feed.value|, AttrNumber(items));
      && (HeadlinesView(feed, items).None? <==> exists j :: 0 <= j < n && CardOf(feed.value[j], items).None?)
      && (HeadlinesView(feed, items).Some? ==>
            && HeadlinesView(feed, items).value.HLCards?
            && CardsFor(feed.value[..n], HeadlinesView(feed, items).value.cards, items))
  {
    if feed.Some? && feed.value != [] {
      var n := Kept(|feed.value|, AttrNumber(items));
      var es := feed.value[..n];
      CardsOfSome(es, items);
      if CardsOf(es, items).None? {
        var j :| 0 <= j < n && CardOf(es[j], items).None?;
        assert es[j] == feed.value[j];
      } else {
        forall j | 0 <= j < n ensures CardOf(feed.value[j], items).Some? {
          assert es[j] == feed.value[j];
        }
      }
    }
  }

  /**
   * `yzRecHL(e, element)`: an empty container for a missing or empty entry
   * list, else the cards of the entries the `data-items` cap keeps.
   */
  method RenderHeadlines(feed: Option<seq<Entry>>, items: Option<string>) returns (view: Option<HLView>)
    ensures view == HeadlinesView(feed, items)
  {
    if feed.None? || |feed.value| == 0 {
      return Some(HLEmpty);
    }
    var cards := RenderCards(feed.value, items, AttrNumber(items));
    view := if cards.None? then None else Some(HLCards(cards.value));
  }

  /**
   * The `forEach` over the entries: those at index `t >= s` are skipped,
   * every other one appends its card, and the first that throws ends the
   * rendering.
   */
  method RenderCards(es: seq<Entry>, items: Option<string>, cap: Num) returns (cards: Option<seq<Card>>)
    ensures cards == CardsOf(es[..Kept(|es|, cap)], items)
  {
    var kept := Kept(|es|, cap);
    var acc: seq<Card> := [];
    var t := 0;
    while t < |es|
      invariant 0 <= t <= |es|
      invariant CardsOf(es[..if t < kept then t else kept], items) == Some(acc)
    {
      assert t < kept <==> !Skipped(t, cap);
      if !Skipped(t, cap) {
        var c := CardOf(es[t], items);
        CardsOfExtend(es, t, items);
        if c.None? {
          CardsOfThrowsAt(es, kept, t, items);
          return None;
        }
        acc := acc + [c.value];
      }
      t := t + 1;
    }
    cards := Some(acc);
  }
}
