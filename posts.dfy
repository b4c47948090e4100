/**
 * The recent-posts record of he/all.js, its two renderers, and the merge
 * step of the multi-source loaders: concatenate what the sources gave,
 * sort newest first, keep the first `count`.
 */
module Posts {
  import opened Wrappers
  import opened JsText

  /** One normalised post; `rawDate` is the post's timestamp in milliseconds. */
  datatype Post = Post(title: string, link: string, rawDate: int, source: string, img: string)

  /** One rendered list row: thumbnail, linked title, and the site label `source.split('.')[0]`. */
  datatype Row = Row(link: string, img: string, title: string, site: string)

  /**
   * What a slot's container shows: the loading skeleton with its row count,
   * the "Tidak ada konten." paragraph, or the list of rows.
   */
  datatype View = Skeleton(lines: nat) | NoContent | List(rows: seq<Row>)

  /** The skeleton has 4 rows on a window at least 768px wide, 2 otherwise. */
  function RenderSkeleton(innerWidth: int): View {
    Skeleton(if innerWidth >= 768 then 4 else 2)
  }

  function RowOf(p: Post): Row {
    Row(p.link, p.img, p.title, Split(p.source, '.')[0])
  }

  /** `renderList`: the fixed paragraph for an empty list, else one row per post in order. */
  function RenderList(items: seq<Post>): (v: View)
    ensures v.NoContent? <==> items == []
    ensures items != [] ==> v.List? && |v.rows| == |items|
  {
    if items == [] then NoContent else List(seq(|items|, i requires 0 <= i < |items| => RowOf(items[i])))
  }

  /** The `i`-th row of a rendered list is the row of the `i`-th post. */
  lemma RenderListRows(items: seq<Post>)
    ensures RenderList(items).List? ==> forall i :: 0 <= i < |items| ==> RenderList(items).rows[i] == RowOf(items[i])
  {
  }

  /** A row's site label is the source host up to its first dot. */
  lemma RowSiteIsHostPrefix(p: Post)
    ensures var site := RowOf(p).site;
      && |site| <= |p.source| && p.source[..|site|] == site && '.' !in site
      && (|site| < |p.source| ==> p.source[|site|] == '.')
  {
    SplitHead(p.source, '.');
  }

  // ---------------------------------------------------------------- sort

  predicate NewestFirst(s: seq<Post>) {
    forall i, j :: 0 <= i < j < |s| ==> s[i].rawDate >= s[j].rawDate
  }

  /**
   * Insert `p` in front of the first post that is not newer than it: `p`
   * stays ahead of the equal-dated posts that followed it in the input.
   */
  function Insert(p: Post, s: seq<Post>): (r: seq<Post>)
    requires NewestFirst(s)
    ensures NewestFirst(r)
    ensures multiset(r) == multiset(s) + multiset{p}
    ensures r[0] == p || (s != [] && r[0] == s[0])
  {
    if s == [] || p.rawDate >= s[0].rawDate then [p] + s
    else
      var rest := Insert(p, s[1..]);
      assert s == [s[0]] + s[1..];
      assert s[0].rawDate >= rest[0].rawDate;
      ConsNewest(s[0], rest);
      [s[0]] + rest
  }

  lemma ConsNewest(h: Post, rest: seq<Post>)
    requires NewestFirst(rest) && (rest == [] || h.rawDate >= rest[0].rawDate)
    ensures NewestFirst([h] + rest)
  {
    forall i, j | 0 <= i < j < |rest| + 1
      ensures ([h] + rest)[i].rawDate >= ([h] + rest)[j].rawDate
    {
      if i == 0 {
        assert rest[0].rawDate >= rest[j - 1].rawDate || j == 1;
      }
    }
  }

  /**
   * `all.sort((a, b) => b.rawDate - a.rawDate)`: a stable sort, newest first.
   * The result is ordered and holds exactly the input's posts.
   */
  function SortByDate(s: seq<Post>): (r: seq<Post>)
    ensures NewestFirst(r)
    ensures multiset(r) == multiset(s)
  {
    if s == [] then []
    else
      assert s == [s[0]] + s[1..];
      Insert(s[0], SortByDate(s[1..]))
  }

  /**
   * `s.slice(0, count)`: a non-negative count keeps at most `count` items,
   * a negative one drops that many from the end.
   */
  function Take<T>(s: seq<T>, count: int): (r: seq<T>)
    ensures |r| == if count >= 0 then (if count < |s| then count else |s|)
                   else (if |s| + count > 0 then |s| + count else 0)
    ensures r == s[..|r|]
  {
    if count >= 0 then (if count < |s| then s[..count] else s)
    else if |s| + count > 0 then s[..|s| + count] else []
  }

  // ---------------------------------------------------------------- merge

  /** The outcome of one source's promise under `Promise.allSettled`. */
  datatype Settled = Fulfilled(value: seq<Post>) | Rejected

  /** `results.filter(r => r.status === 'fulfilled').flatMap(r => r.value)`. */
  function FulfilledPosts(results: seq<Settled>): seq<Post> {
    if results == [] then []
    else (if results[0].Fulfilled? then results[0].value else []) + FulfilledPosts(results[1..])
  }

  /** The list a multi-source slot renders from its sources' outcomes. */
  function Merge(results: seq<Settled>, count: int): seq<Post> {
    Take(SortByDate(FulfilledPosts(results)), count)
  }

  /** A failed source contributes nothing, and removes nothing contributed by the others. */
  lemma {:induction false} RejectedSourceDropsOnlyItsOwn(results: seq<Settled>, i: nat)
    requires i < |results| && results[i].Fulfilled?
    ensures multiset(FulfilledPosts(results))
         == multiset(FulfilledPosts(results[i := Rejected])) + multiset(results[i].value)
  {
    var changed := results[i := Rejected];
    if i == 0 {
      assert changed[1..] == results[1..];
    } else {
      assert changed[1..] == results[1..][i - 1 := Rejected];
      RejectedSourceDropsOnlyItsOwn(results[1..], i - 1);
    }
  }

  /** Every post of every fulfilled source reaches the merge, and nothing else does. */
  lemma {:induction false} FulfilledPostsMembers(results: seq<Settled>, p: Post)
    ensures p in FulfilledPosts(results)
        <==> exists i :: 0 <= i < |results| && results[i].Fulfilled? && p in results[i].value
  {
    if results != [] {
      FulfilledPostsMembers(results[1..], p);
      if p in FulfilledPosts(results[1..]) {
        var i :| 0 <= i < |results[1..]| && results[1..][i].Fulfilled? && p in results[1..][i].value;
        assert results[i + 1] == results[1..][i];
      }
      if exists i :: 0 <= i < |results| && results[i].Fulfilled? && p in results[i].value {
        var i :| 0 <= i < |results| && results[i].Fulfilled? && p in results[i].value;
        if i > 0 {
          assert results[1..][i - 1] == results[i];
        }
      }
    }
  }

  /**
   * What a multi-source slot shows: newest first, `min(count, total)` posts
   * for a positive `count`, taken from the sources' posts, and never
   * older than a post it left out.
   */
  lemma MergeKeepsNewest(results: seq<Settled>, count: int)
    ensures var all := FulfilledPosts(results);
            var r := Merge(results, count);
      && NewestFirst(r)
      && (count > 0 ==> |r| == if count < |all| then count else |all|)
      && multiset(r) <= multiset(all)
      && (forall x, y :: x in r && y in multiset(all) - multiset(r) ==> x.rawDate >= y.rawDate)
  {
    var all := FulfilledPosts(results);
    var sorted := SortByDate(all);
    assert |sorted| == |multiset(sorted)| == |multiset(all)| == |all|;
    TakeNewest(sorted, count);
  }

  /** A prefix of a newest-first list is newest first, and never older than what it leaves out. */
  lemma TakeNewest(sorted: seq<Post>, count: int)
    requires NewestFirst(sorted)
    ensures var r := Take(sorted, count);
      && NewestFirst(r)
      && multiset(r) <= multiset(sorted)
      && (forall x, y :: x in r && y in multiset(sorted) - multiset(r) ==> x.rawDate >= y.rawDate)
  {
    var r := Take(sorted, count);
    var rest := sorted[|r|..];
    assert sorted == r + rest;
    assert multiset(sorted) - multiset(r) == multiset(rest);
    PrefixIsNewer(sorted, |r|);
    assert forall i :: 0 <= i < |r| ==> r[i] == sorted[i];
  }

  /** In a newest-first list, a prefix is never older than what follows it. */
  lemma PrefixIsNewer(sorted: seq<Post>, k: nat)
    requires NewestFirst(sorted) && k <= |sorted|
    ensures forall x, y :: x in sorted[..k] && y in multiset(sorted[k..]) ==> x.rawDate >= y.rawDate
  {
    forall x, y | x in sorted[..k] && y in multiset(sorted[k..])
      ensures x.rawDate >= y.rawDate
    {
      var i :| 0 <= i < k && sorted[..k][i] == x;
      var j :| 0 <= j < |sorted| - k && sorted[k..][j] == y;
      assert sorted[i] == x && sorted[k + j] == y;
    }
  }

  // ---------------------------------------------------------------- slot attributes

  /** `container.dataset.sources.split(',').map(s => s.trim())`. */
  function SourceList(attr: string): (srcs: seq<string>)
    ensures |srcs| == |Split(attr, ',')| >= 1
    ensures forall i :: 0 <= i < |srcs| ==> srcs[i] == Trim(Split(attr, ',')[i])
  {
    var parts := Split(attr, ',');
    seq(|parts|, i requires 0 <= i < |parts| => Trim(parts[i]))
  }

  /** `parseInt(container.dataset.items) || 5`: NaN and 0 both read as 5. */
  function ParseCount(items: Option<string>): (n: int)
    ensures n != 0
  {
    var p := if items.Some? then ParseInt(items.value) else None;
    if p.Some? && p.value != 0 then p.value else 5
  }

  /** A written count is read back as itself; a missing, unreadable or zero count as 5. */
  lemma ParseCountDefaults(items: Option<string>, n: int)
    ensures n != 0 ==> ParseCount(Some(IntToString(n))) == n
    ensures ParseCount(Some(IntToString(0))) == 5
    ensures ParseCount(None) == 5
    ensures items.Some? && ParseInt(items.value).None? ==> ParseCount(items) == 5
  {
    ParseIntToString(n);
    ParseIntToString(0);
  }
}
