# Recent-posts loader and recHL headlines widget

This project models the two scripts of the HarianExpress Blogger theme that hold logic.

`he/all.js` fills the "recent posts" slots. Each `.recent-wp-multi` or `.recent-blg-multi` element is watched by an IntersectionObserver. The first time it comes into view it shows a loading skeleton. Its loader then fetches every source in `data-sources`:

- WordPress sources are read through the REST API with `_embed`.
- Blogger sources are read through a JSONP feed.

Both kinds of fetch go through a five-minute `localStorage` cache. Each fetch normalises the posts it gets into one record shape. The slot then merges the sources' lists newest first and renders the first `data-items` posts. The same file also has a scroll listener that sets the `dw` and `up` classes on the body.

`assets/js/he-main.js` drives the `.recHL` headline widgets:

- It builds a Blogger feed URL from `data-source`, `data-label` and `data-items`.
- It injects that URL as a script with callback `yzRecHL_<index>`.
- If the script fails, it falls back to the unlabelled feed.
- It renders up to `data-items` cards, each with a thumbnail, a title, an optional label link and a date.

The same file rewrites the `HarianExpress.com` author label into a link. On narrow screens it also strips `?m=1` / `&m=1` from the share links.

Events from outside the scripts become inputs:

- the current time `now`;
- `window.innerWidth` and `window.pageYOffset`;
- what storage holds, and whether it throws;
- what each request or JSONP callback delivers.

State that the scripts change in place is modelled by classes:

- `FeedCache.Cache`: `localStorage`.
- `BloggerLoader.BloggerSlot`: the closure of `loadMultiBlg`.
- `SlotObserver.Observer`: the set of observed slots.
- `ScrollHeader.ScrollWatcher`: `lastS` and the two body classes.
- `HeadlinesLoader.RecHL`: one widget and the scripts it injected.

Loops become methods with invariants. Each is proved against a function that states what the loop computes.

Modules:

- wrappers.dfy (`Wrappers`): `Option`.
- js_text.dfy (`JsText`): the string and number built-ins the scripts use: `trim`, `split`, `parseInt`, `startsWith`, the `Number` conversion, and how integers print. `IndexOf` is the substring search behind the `<img … src="…">` match.
- js_uri.dfy (`JsUri`): `encodeURIComponent` and its percent-decoding inverse.
- posts.dfy (`Posts`): the post record, `renderSkeleton`, `renderList`, the date sort, `slice`, the merge, and the slot attributes.
- feed_cache.dfy (`FeedCache`): `Cache.get` / `Cache.set` and the two cache-key templates.
- blogger_feed.dfy (`BloggerFeed`): a Blogger feed entry and its "alternate" link.
- normalise.dfy (`Normalise`): the WordPress and Blogger mapping lambdas and their thumbnail chains.
- wp_loader.dfy (`WpLoader`): `fetchWP` and `loadMultiWP`.
- blogger_loader.dfy (`BloggerLoader`): `fetchBlogger` and `loadMultiBlg`.
- slot_observer.dfy (`SlotObserver`): the observer callback and the initialisation that observes every slot.
- scroll_header.dfy (`ScrollHeader`): the scroll listener.
- headlines.dfy (`Headlines`): `yzRecHL`, the renderer.
- headlines_loader.dfy (`HeadlinesLoader`): the `.recHL` loader: URLs, `loadFeed`, `onerror`.
- page_rewrites.dfy (`PageRewrites`): the author-label rewrite and `cleanUrl` on the share links.

## Model

| member | source | states |
|---|---|---|
| JsText.Split | he/all.js:146 | `split(',')` always returns at least one piece, and no piece holds the separator |
| JsText.JoinSplit | he/all.js:146 | joining the pieces of a split with the separator gives back the original string |
| JsText.SplitHead | he/all.js:48 | the first piece of a split is the text before the first separator, or the whole text when there is none |
| JsText.TrimStart | he/all.js:146 | the result is a suffix of the input; only white space was removed, and the result does not start with white space |
| JsText.TrimEnd | he/all.js:146 | the result is a prefix of the input; only white space was removed, and the result does not end with white space |
| JsText.IndexOf | assets/js/he-main.js:27 | the first occurrence of the pattern at or after `from`; none before it; `None` only when none exists |
| JsText.ParseIntToString | he/all.js:147 | `parseInt` reads back exactly the integer that a template literal printed |
| JsText.IntToStringInjective | he/all.js:68 | two different counts print differently, so they give different cache keys |
| JsUri.EncodedHasNoDelimiter | assets/js/he-main.js:92 | an encoded label contains no `/ ? # & =`, so it stays inside its path segment |
| JsUri.PercentRoundTrip | assets/js/he-main.js:92 | percent-decoding undoes the encoding, so the label's UTF-8 bytes can be recovered from the URL |
| JsUri.EncodeUnreservedIdentity | assets/js/he-main.js:92 | a label made only of unreserved characters is left unchanged |
| Posts.RenderList | he/all.js:33-51 | the "Tidak ada konten." paragraph exactly for an empty list; otherwise a list with one row per post |
| Posts.RenderListRows | he/all.js:38-50 | the `i`-th row of a rendered list is the row of the `i`-th post: its link, image, title and site label |
| Posts.RowSiteIsHostPrefix | he/all.js:48 | a row's site label is the source host up to, not including, its first dot |
| Posts.Insert | he/all.js:152 | inserting into a newest-first list keeps it newest first and adds exactly one post |
| Posts.SortByDate | he/all.js:152 | the sorted list is newest first and is a permutation of the input |
| Posts.Take | he/all.js:153 | `slice(0, count)` keeps `min(count, n)` leading items; a negative count drops that many from the end |
| Posts.RejectedSourceDropsOnlyItsOwn | he/all.js:149-150 | a rejected source takes away exactly its own posts from the merge, and none of the others' |
| Posts.FulfilledPostsMembers | he/all.js:150 | a post reaches the merge iff some fulfilled source returned it |
| Posts.MergeKeepsNewest | he/all.js:150-153 | the rendered list is newest first and holds `min(count, total)` posts of the sources for a positive count; no post left out is newer than one kept |
| Posts.SourceList | he/all.js:146 | the `i`-th source is the `i`-th comma-separated piece, trimmed; never an empty list |
| Posts.ParseCount | he/all.js:147 | the count read from `data-items`, with 5 for NaN and 0, is never 0 |
| Posts.ParseCountDefaults | he/all.js:147 | a written count is read as itself; a missing attribute, NaN or 0 is read as 5 |
| FeedCache.Cache.Get | he/all.js:55-60 | the stored value iff storage works, the item parses, and it is strictly younger than 300000 ms; otherwise nothing, and it never throws |
| FeedCache.Cache.Set | he/all.js:61-63 | the item is written with the current time unless storage throws. A later `get` under 300000 ms returns exactly the value, and one at or past 300000 ms returns nothing. Other keys are untouched |
| FeedCache.KeyFieldsSeparate | he/all.js:68 | keys that differ in the source, the category part or the count are different keys; the Blogger template at line 102 has the same shape |
| FeedCache.BlgKeysCanCollide | he/all.js:102 | keys that differ in two fields can coincide: source `a_b` with no category and source `a` with category `b_all` share one key |
| FeedCache.KeysSeparateKinds | he/all.js:102 | a Blogger key never equals a WordPress key |
| BloggerFeed.AlternateHref | he/all.js:111 | the href of the first link whose rel is "alternate"; `None` (where `.href` throws) iff there is no such link |
| Normalise.WpThumb | he/all.js:82-84 | the WordPress thumbnail is never empty |
| Normalise.WpThumbChain | he/all.js:82-84 | the thumbnail-size URL, else the full URL, else the placeholder, each taken only when the earlier ones are missing or empty; the result comes from the first media item or is the placeholder |
| Normalise.NormaliseWp | he/all.js:80-94 | one post per WordPress post, in order, tagged with its source, with the resolved thumbnail |
| Normalise.SizeSegmentAt | he/all.js:115 | a match of `/s\d+-c/` at a position: `/s`, one or more digits, then `-c/` |
| Normalise.SegmentPresent | he/all.js:115 | every `/s`, one or more digits, `-c/` at a position is recognised there, ending after the `-c/` |
| Normalise.FirstSizeSegment | he/all.js:115 | the leftmost match: no segment starts earlier, and `None` only when there is no segment at all |
| Normalise.ResizedSegment | he/all.js:115 | the rewritten URL has a size segment exactly where `/s150-c/` was put |
| Normalise.ResizeThumbIdempotent | he/all.js:115 | rewriting the size segment a second time changes nothing |
| Normalise.MapEntries | he/all.js:109-116 | one post per entry, in order, iff every entry has an "alternate" link; otherwise the callback throws |
| WpLoader.CompleteWP | he/all.js:76-98 | after a miss, the normalised list is returned and stored; a failure gives `[]` and stores nothing |
| WpLoader.FetchWP | he/all.js:67-99 | a fresh cache item is returned unchanged, with no request and no write; otherwise the REST URL is requested and the outcome stored as above |
| WpLoader.Hits | he/all.js:69 | each source's lookup, with `catId` null, at the time the fetches start |
| WpLoader.Outcomes | he/all.js:149 | `allSettled` reports every source, in source order, as fulfilled with `fetchWP`'s outcome |
| WpLoader.StartFetches | he/all.js:149 | all lookups come first, and there is one request per missed source, in source order |
| WpLoader.SettleFetches | he/all.js:149-150 | every outcome in source order; the cache ends with exactly the successful misses' writes |
| WpLoader.LoadMultiWP | he/all.js:145-154 | without `data-sources` nothing is requested and the skeleton stays. Otherwise the container shows the merge of the sources' outcomes, and the requests and cache writes are those of the misses |
| WpLoader.WpOutcomesMerged | he/all.js:149-150 | a fresh source contributes exactly its cached list, and every post of every source reaches the merge |
| BloggerLoader.BlgLabelPathRecoverable | he/all.js:123 | `/` without a category; with one, `/-/<encoded>/` whose middle has no delimiter and decodes to the category |
| BloggerLoader.GatheredMembers | he/all.js:163 | a post is in the appended list iff one of the arrived lists holds it |
| BloggerLoader.PartitionComplete | he/all.js:164 | once `done` equals the number of sources, none is still waiting or lost |
| BloggerLoader.BlgHits | he/all.js:103 | each source's Blogger lookup, with no category, at the time the slot starts |
| BloggerLoader.BlgScriptUrls | he/all.js:123-124 | the script URL source `i` would inject: no label path, `count` results, its own callback name |
| BloggerLoader.MissedUrlsExtremes | he/all.js:101-125 | when every lookup is fresh no script is injected; when every lookup misses, one script per source, in source order |
| BloggerLoader.MissedUrlsMembers | he/all.js:101-125 | a URL is requested iff some started source's lookup missed and that source's script has that URL |
| BloggerLoader.BloggerSlot.constructor | he/all.js:156-170 | every source is started in order: a fresh item calls back at once, a miss injects the script and waits; every source is either called back or waiting; the injected script URLs are exactly those of the sources whose lookup missed, in source order, each with its callback name |
| BloggerLoader.BloggerSlot.StartAll | he/all.js:161-169 | the `forEach` starts every source in order; afterwards every source has called back or is waiting, and none is lost; the scripts it injects are those of the missed sources, in source order |
| BloggerLoader.BloggerSlot.StartNext | he/all.js:101-125 | one `forEach` step: after source `i` is looked up and started, the injected scripts are those of the missed sources among `0 .. i` |
| BloggerLoader.BloggerSlot.StartSource | he/all.js:101-126 | one `fetchBlogger` up to its first callback: a hit is delivered with no request, a miss adds exactly one script URL |
| BloggerLoader.BloggerSlot.Deliver | he/all.js:162-167 | each callback appends its list and increments `done`; the last one sorts, and renders the first `count` posts |
| BloggerLoader.BloggerSlot.OnFeed | he/all.js:107-120 | a callback whose entries all map stores the list and passes it to the slot; one that throws leaves the source lost, with nothing stored or appended |
| BloggerLoader.BloggerSlot.RenderedHasEverySource | he/all.js:164-167 | once rendered, every source has called back, and the list is every post they passed, newest first, cut to `count` |
| BloggerLoader.BloggerSlot.NoRenderWhileWaiting | he/all.js:164 | the slot renders iff `done` equals the number of sources, so a waiting or lost source blocks the render forever |
| SlotObserver.StepEffect | he/all.js:131-139 | an entry that does not intersect changes nothing. One that does gets the skeleton (4 rows at 768px or wider, 2 otherwise) and its loader is dispatched. It is unobserved unless the loader throws |
| SlotObserver.RunLoadsOnce | he/all.js:129-141 | a batch keeps the once-per-slot rule: a slot whose loader ran normally is unobserved, and only a throwing slot is ever loaded twice |
| SlotObserver.RunStopsAtThrow | he/all.js:130-137 | after a loader throws, the rest of the batch is skipped |
| SlotObserver.Observer.constructor | he/all.js:173-177 | at initialisation every slot is observed, and nothing is shown or loaded |
| SlotObserver.Observer.OnEntries | he/all.js:129-141 | the callback does exactly what the entries do in order, up to the first throw |
| ScrollHeader.OnScroll | he/all.js:186-190 | a move under 50px changes nothing. Otherwise `lastS` becomes the offset, `dw` iff moving down past 100, `up` iff moving up; never both |
| ScrollHeader.NeverBothDirections | he/all.js:184-191 | from the page's start, `dw` and `up` are never both set, and `dw` only past 100px |
| ScrollHeader.AcceptedStepsApart | he/all.js:187-190 | the remembered offset only moves in steps of 50px or more |
| ScrollHeader.ScrollWatcher.constructor | he/all.js:184 | `lastS` is 0 and neither class is set |
| ScrollHeader.ScrollWatcher.HandleScroll | he/all.js:185-191 | the listener's new state is `OnScroll` of the old one, and `dw` and `up` are never both set |
| Headlines.FirstImgSrc | assets/js/he-main.js:27-30 | none without an `<img`; a capture is the value of the first `src="` after the first `<img`, up to the next quote |
| Headlines.FirstImgPresent | assets/js/he-main.js:27-30 | an `<img`, a later `src="` and a closing quote after it always give a capture |
| Headlines.FirstImgSrcOfTag | assets/js/he-main.js:27 | for content starting `<img src="u"`, the capture is exactly `u` |
| Headlines.ResolveThumb | assets/js/he-main.js:23-35 | an image URL taken from the entry is never empty |
| Headlines.ResolveThumbChain | assets/js/he-main.js:23-35 | `media$thumbnail`, else the content-or-summary `<img>` capture, else the SVG exactly when there is no thumbnail and no non-empty capture; the `src` written into the card is never empty |
| Headlines.CardOf | assets/js/he-main.js:38-50 | a card has the alternate link, the thumbnail, the title and the date. The label link is present iff there is a non-empty first category. Rendering throws iff there is no alternate link or the category array is empty |
| Headlines.Kept | assets/js/he-main.js:19-20 | an entry is kept iff it is before the cap `t >= Number(data-items)`; a NaN cap keeps all |
| Headlines.CardsOfSome | assets/js/he-main.js:19-59 | the entries render iff every one of them does, and then there is one card per entry, in order |
| Headlines.HeadlinesCap | assets/js/he-main.js:18-63 | the empty container iff the feed has no entries; otherwise nothing is written iff one of the entries the cap keeps throws, and else there is one card per kept entry, in feed order |
| Headlines.RenderHeadlines | assets/js/he-main.js:15-64 | the container ends as `HeadlinesView` says |
| Headlines.RenderCards | assets/js/he-main.js:19-59 | the `forEach` that skips `t >= s` and appends one card per other entry yields the cards of exactly the entries the cap keeps, or throws iff one of them does |
| HeadlinesLoader.BlogUrl | assets/js/he-main.js:75 | `data-source` as it is when it starts with "http", else prefixed by `https://`; the result always starts with "http" |
| HeadlinesLoader.StripTrailingSlash | assets/js/he-main.js:92 | exactly one trailing `/` is removed, and nothing else changes |
| HeadlinesLoader.ScriptUrlInsertsLabel | assets/js/he-main.js:84-92 | the first URL is the fallback URL with the label segment inserted after the feed path; without a label the two are equal |
| HeadlinesLoader.LabelSegmentRecoverable | assets/js/he-main.js:92 | the segment is present iff the label is set; it is `/-/` then an encoding that has no delimiter and decodes to the label |
| HeadlinesLoader.WidgetOf | assets/js/he-main.js:70-75 | an element is handled iff its `data-source` is non-empty; its callback is `yzRecHL_<index>` |
| HeadlinesLoader.UnlabelledErrorRendersEmpty | assets/js/he-main.js:86-88 | without a label a failed script renders the empty container and injects nothing |
| HeadlinesLoader.ErrorsNeverSettle | assets/js/he-main.js:82-88 | with a label, `k` failed scripts leave the element untouched and have injected `k + 1` scripts, all after the first being the fallback URL |
| HeadlinesLoader.BoundedErrorsSettle | assets/js/he-main.js:82-88 | with one retry at most, a labelled widget injects exactly one fallback and shows the empty container after the second failure; an unlabelled one after the first |
| HeadlinesLoader.RecHL.constructor | assets/js/he-main.js:92-93 | the widget starts with the one script of the labelled URL and an untouched element |
| HeadlinesLoader.RecHL.OnData | assets/js/he-main.js:77-79 | the callback shows what `yzRecHL` renders, unless it throws, and injects nothing |
| HeadlinesLoader.RecHL.OnError | assets/js/he-main.js:82-89 | the error handler as written: with a label it injects the fallback URL again, without one it renders the empty container |
| PageRewrites.ReplaceAllLength | assets/js/he-main.js:105 | a global replace changes the length by the replacement's length minus the match width, once per match |
| PageRewrites.ReplaceAllNoMatch | assets/js/he-main.js:105 | a string without a match is returned unchanged |
| PageRewrites.ReplaceAllIdentity | assets/js/he-main.js:105 | when the replacement has a different length, the string changes iff it holds a match |
| PageRewrites.ReplaceAllDeletes | assets/js/he-main.js:105 | replacing with the empty string only deletes characters |
| PageRewrites.CleanUrlRemoves | assets/js/he-main.js:103-106 | four characters fewer per removed parameter; only characters of the input remain; unchanged iff there was none |
| PageRewrites.CleanUrlPlainPrefix | assets/js/he-main.js:103-106 | text with no `?` or `&` starts no parameter, so the pass copies it unchanged and cleans only what follows |
| PageRewrites.CleanUrlMobilePermalink | assets/js/he-main.js:103-106 | a permalink loses its `?M=1` (the match ignores case) |
| PageRewrites.CleanUrlNotIdempotent | assets/js/he-main.js:103-106 | `&m&m=1=1` cleans to `&m=1`, which cleans again to the empty string |
| PageRewrites.CleanShareLinks | assets/js/he-main.js:100-120 | on a screen at most 768px wide every non-empty share `href` is replaced by its cleaned URL and every other one is kept; wider screens change nothing |
| PageRewrites.AuthorLabelLinks | assets/js/he-main.js:7-10 | each mention grows the label by the link markup; a label without a mention is unchanged |
| PageRewrites.AuthorLabelOfName | assets/js/he-main.js:7-10 | the bare site name becomes exactly the link, whose own text is not replaced again |
| PageRewrites.RewriteAuthorLabels | assets/js/he-main.js:3-12 | every author label gets the rewrite, and only once |

## Left out

- he/about.js is not part of this model: it only toggles menu classes and scrolls the page.
- Network and transport are not modelled as such: `fetch`, `res.json()`, script injection, `window[cbName]` registration and deletion, and `Math.random` callback names. Each response or callback arrives as a parameter (`WpResponse`, an `Option` of entries, a list of callback names).
- IntersectionObserver geometry, `rootMargin`, `setTimeout(…, 1000)` and `DOMContentLoaded` are left out; each is an event delivered to a method.
- Dates are left out: `new Date(…)` parsing, `toLocaleDateString('id-ID')` and the `timeago` element. Dates are integer timestamps, and the sort compares them as integers.
- The HTML and CSS text is left out. Only its structure is modelled: rows, cards, the label link, the skeleton's row count and the two empty markups.
- `updateImageUrls`, `initSwipe`, `updateTimeAgo` and `shareM` are not defined in these files. `Headlines.ResolveThumb` gives the thumbnail before `updateImageUrls`.
- SlotObserver.RunLoadsOnce: assumes the browser delivers each batch with distinct targets that are all still observed (`Deliverable`).
- WpLoader.LoadMultiWP: the responses are handled in source order. Cache writes in another completion order differ only when the same source appears twice.
- BloggerLoader.BloggerSlot.constructor: models only containers that have `data-sources`. The throw on a missing attribute is modelled in `SlotObserver.LoaderThrows`.
- A Blogger callback whose payload has no `feed` throws in the same way as one with an entry that lacks its "alternate" link. The model only covers the second case, through `Normalise.MapEntries`.
- A Blogger entry without `title` or `published` also throws, in both scripts (he/all.js:110, 112; assets/js/he-main.js:21, 38). So does a `media$thumbnail` without `url` in he/all.js:115. The entry datatype always holds a title, a date and an optional thumbnail URL, so these throws are not modelled. In assets/js/he-main.js:23 a thumbnail without `url` reads as no thumbnail, as in the model.
- JsText.StringToNumber: only integers are read (decimal with a sign, or `0x`/`0o`/`0b`). A fraction, an exponent or `Infinity` in `data-items` reads as NaN here, although JavaScript gives a number.
- Headlines.FirstImgSrc: `.` in the regular expression does not match line terminators. The model lets `<img` and `src="` be separated by any text, and lets the captured value run to the next `"` across line breaks. In JavaScript, a line break in either place makes the match backtrack to a later `src="` or a later `<img`, or fail.
- Integers are unbounded. Counts and timestamps beyond 2^53 would lose precision in JavaScript; that is not modelled.
- `window.pageYOffset` is modelled as an integer offset.
- `encodeURIComponent` throws on a lone surrogate, but a Dafny `char` cannot hold one.
- The engine's `Array.prototype.sort` algorithm is not modelled. `Posts.SortByDate` is a stable sort with the same order and permutation guarantees.

## Findings

| source | as written | input that shows it | evidently intended | confidence | as-written member | corrected member |
|---|---|---|---|---|---|---|
| assets/js/he-main.js:82-88 | With a label, every script error injects the unlabelled URL again with the same error handler. Since `label` stays set, a feed that keeps failing is requested without end and the widget is never rendered | a `.recHL` element with `data-label="News"` whose blog is unreachable, so both the labelled and the unlabelled script fail | retry once without the label, then render the empty container as the unlabelled branch does | high; not executed | HeadlinesLoader.ErrorsNeverSettle | HeadlinesLoader.BoundedErrorsSettle |

`HeadlinesLoader.RecHL` follows the code as written. The corrected transition is `HeadlinesLoader.AfterErrorBounded`.
