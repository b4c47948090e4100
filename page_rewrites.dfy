/**
 * The two in-page string rewrites of assets/js/he-main.js: the author
 * label, where every `HarianExpress.com` becomes a link to the site, and,
 * on narrow screens, the share links under `#share`, whose `href` loses
 * every `?m=1` / `&m=1` (any case of `m`). Both are a global regular
 * expression replace with a fixed-width pattern, modelled by `ReplaceAll`.
 */
module PageRewrites {
  import opened Wrappers
  import opened JsText

  // ------------------------------------------------------ global replace

  /**
   * `s.replace(re, rep)` for a global `re` that matches exactly the
   * `width`-character windows `isMatch` accepts: the scan goes left to
   * right, a match is replaced and skipped, and the replacement is never
   * scanned again.
   */
  function ReplaceAll(s: string, width: nat, isMatch: string -> bool, rep: string): string
    requires width > 0
    decreases |s|
  {
    if |s| < width then s
    else if isMatch(s[..width]) then rep + ReplaceAll(s[width..], width, isMatch, rep)
    else [s[0]] + ReplaceAll(s[1..], width, isMatch, rep)
  }

  /** The number of matches the same scan replaces. */
  function MatchCount(s: string, width: nat, isMatch: string -> bool): nat
    requires width > 0
    decreases |s|
  {
    if |s| < width then 0
    else if isMatch(s[..width]) then 1 + MatchCount(s[width..], width, isMatch)
    else MatchCount(s[1..], width, isMatch)
  }

  lemma OneMoreTimes(m: int, d: int)
    ensures (1 + m) * d == d + m * d
  {
  }

  /** Each replaced match changes the length by `|rep| - width`. */
  lemma {:induction false} ReplaceAllLength(s: string, width: nat, isMatch: string -> bool, rep: string)
    requires width > 0
    ensures |ReplaceAll(s, width, isMatch, rep)| == |s| + MatchCount(s, width, isMatch) * (|rep| - width)
    decreases |s|
  {
    if |s| >= width {
      var d := |rep| - width;
      if isMatch(s[..width]) {
        ReplaceAllLength(s[width..], width, isMatch, rep);
        OneMoreTimes(MatchCount(s[width..], width, isMatch), d);
      } else {
        ReplaceAllLength(s[1..], width, isMatch, rep);
      }
    }
  }

  /** A string without a match comes back unchanged. */
  lemma {:induction false} ReplaceAllNoMatch(s: string, width: nat, isMatch: string -> bool, rep: string)
    requires width > 0 && MatchCount(s, width, isMatch) == 0
    ensures ReplaceAll(s, width, isMatch, rep) == s
    decreases |s|
  {
    if |s| >= width {
      ReplaceAllNoMatch(s[1..], width, isMatch, rep);
      assert [s[0]] + s[1..] == s;
    }
  }

  /** When the replacement has another length, the replace changes `s` iff `s` holds a match. */
  lemma ReplaceAllIdentity(s: string, width: nat, isMatch: string -> bool, rep: string)
    requires width > 0 && |rep| != width
    ensures ReplaceAll(s, width, isMatch, rep) == s <==> MatchCount(s, width, isMatch) == 0
  {
    var n := MatchCount(s, width, isMatch);
    if n == 0 {
      ReplaceAllNoMatch(s, width, isMatch, rep);
    } else {
      ReplaceAllLength(s, width, isMatch, rep);
      ProductNonZero(n, |rep| - width);
    }
  }

  lemma ProductNonZero(a: int, b: int)
    requires a != 0 && b != 0
    ensures a * b != 0
  {
  }

  /** Replacing with the empty string only deletes characters. */
  lemma {:induction false} ReplaceAllDeletes(s: string, width: nat, isMatch: string -> bool)
    requires width > 0
    ensures multiset(ReplaceAll(s, width, isMatch, "")) <= multiset(s)
    decreases |s|
  {
    if |s| >= width {
      if isMatch(s[..width]) {
        var tail := s[width..];
        ReplaceAllDeletes(tail, width, isMatch);
        assert ReplaceAll(s, width, isMatch, "") == ReplaceAll(tail, width, isMatch, "");
        SuffixMultiset(s, width);
      } else {
        var tail := s[1..];
        ReplaceAllDeletes(tail, width, isMatch);
        assert ReplaceAll(s, width, isMatch, "") == [s[0]] + ReplaceAll(tail, width, isMatch, "");
        assert s == [s[0]] + tail;
      }
    }
  }

  lemma SuffixMultiset(s: string, k: nat)
    requires k <= |s|
    ensures multiset(s[k..]) <= multiset(s)
  {
    assert s == s[..k] + s[k..];
  }

  // ------------------------------------------------------------ cleanUrl

  /** `/[?&]m=1/gi` on a four-character window. */
  predicate MobileParam(w: string) {
    |w| == 4 && (w[0] == '?' || w[0] == '&') && (w[1] == 'm' || w[1] == 'M') && w[2] == '=' && w[3] == '1'
  }

  /** `cleanUrl(url)`: every `?m=1` / `&m=1` removed in one left-to-right pass. */
  function CleanUrl(url: string): string {
    ReplaceAll(url, 4, MobileParam, "")
  }

  /**
   * The cleaned URL is four characters shorter per removed parameter, keeps
   * only characters of the original, and equals it iff there was none.
   */
  lemma CleanUrlRemoves(url: string)
    ensures |CleanUrl(url)| == |url| - 4 * MatchCount(url, 4, MobileParam)
    ensures multiset(CleanUrl(url)) <= multiset(url)
    ensures CleanUrl(url) == url <==> MatchCount(url, 4, MobileParam) == 0
  {
    ReplaceAllLength(url, 4, MobileParam, "");
    ReplaceAllDeletes(url, 4, MobileParam);
    ReplaceAllIdentity(url, 4, MobileParam, "");
  }

  /**
   * Text with neither `?` nor `&` starts no parameter: the pass copies it
   * and cleans only what follows.
   */
  lemma {:induction false} CleanUrlPlainPrefix(p: string, q: string)
    requires forall k :: 0 <= k < |p| ==> p[k] != '?' && p[k] != '&'
    ensures CleanUrl(p + q) == p + CleanUrl(q)
  {
    if p != [] {
      var s := p + q;
      if |s| >= 4 {
        assert s[..4][0] == p[0];
        assert s[1..] == p[1..] + q;
        CleanUrlPlainPrefix(p[1..], q);
        assert CleanUrl(s) == [p[0]] + (p[1..] + CleanUrl(q));
      } else {
        assert CleanUrl(q) == q;
      }
    } else {
      assert p + q == q;
    }
  }

  /** A Blogger mobile permalink loses its `?m=1`. */
  lemma CleanUrlMobilePermalink()
    ensures CleanUrl("/p.html?M=1") == "/p.html"
  {
    CleanUrlPlainPrefix("/p.html", "?M=1");
    assert "/p.html" + "?M=1" == "/p.html?M=1";
    assert MobileParam("?M=1");
    assert CleanUrl("?M=1") == "" + CleanUrl("");
  }

  /** The pass is not idempotent: a removal can join a new `&m=1`. */
  lemma CleanUrlNotIdempotent()
    ensures CleanUrl("&m&m=1=1") == "&m=1"
    ensures CleanUrl("&m=1") == ""
  {
    assert !MobileParam("&m&m") && !MobileParam("m&m=") && MobileParam("&m=1");
    assert ReplaceAll("=1", 4, MobileParam, "") == "=1";
    assert ReplaceAll("&m=1=1", 4, MobileParam, "") == "=1";
    CleanUrlPlainPrefix("m", "&m=1=1");
    assert "m" + "&m=1=1" == "m&m=1=1";
    assert ReplaceAll("", 4, MobileParam, "") == "";
  }

  /** The screen width under which the share links are cleaned. */
  const MobileWidth: int := 768

  /**
   * The share-link pass on `#share a`: below the mobile width every link
   * with a non-empty `href` gets its cleaned URL; a missing or empty `href`
   * is left as it is.
   */
  method CleanShareLinks(links: array<Option<string>>, innerWidth: int)
    modifies links
    ensures innerWidth > MobileWidth ==> links[..] == old(links[..])
    ensures innerWidth <= MobileWidth ==>
      forall i :: 0 <= i < links.Length ==>
        links[i] == if Truthy(old(links[i])) then Some(CleanUrl(old(links[i]).value)) else old(links[i])
  {
    if innerWidth > MobileWidth {
      return;
    }
    var i := 0;
    while i < links.Length
      invariant 0 <= i <= links.Length
      invariant forall k :: 0 <= k < i ==>
        links[k] == if Truthy(old(links[k])) then Some(CleanUrl(old(links[k]).value)) else old(links[k])
      invariant forall k :: i <= k < links.Length ==> links[k] == old(links[k])
    {
      var href := links[i];
      if Truthy(href) {
        links[i] := Some(CleanUrl(href.value));
      }
      i := i + 1;
    }
  }

  // --------------------------------------------------------- author label

  /** The text the author label links. */
  const SiteName: string := "HarianExpress.com"

  /** The link that replaces it. */
  const SiteLink: string := "<a href=\"https://www.harianexpress.com\" rel=\"noopener noreferrer\">HarianExpress.com</a>"

  /** `/HarianExpress\.com/g` on a window of the name's length. */
  predicate SiteMention(w: string) {
    w == SiteName
  }

  /** `element.innerHTML.replace(/HarianExpress\.com/g, <link>)`. */
  function AuthorLabel(html: string): string {
    ReplaceAll(html, |SiteName|, SiteMention, SiteLink)
  }

  /**
   * Every mention becomes the link, the markup grows by the link's extra
   * length per mention, and a label without a mention is unchanged.
   */
  lemma AuthorLabelLinks(html: string)
    ensures |AuthorLabel(html)| == |html| + MatchCount(html, |SiteName|, SiteMention) * (|SiteLink| - |SiteName|)
    ensures AuthorLabel(html) == html <==> MatchCount(html, |SiteName|, SiteMention) == 0
  {
    ReplaceAllLength(html, |SiteName|, SiteMention, SiteLink);
    ReplaceAllIdentity(html, |SiteName|, SiteMention, SiteLink);
  }

  /** The label that is exactly the site name becomes exactly the link, which is not rescanned. */
  lemma AuthorLabelOfName()
    ensures AuthorLabel(SiteName) == SiteLink
  {
    assert SiteName[..|SiteName|] == SiteName;
    assert SiteName[|SiteName|..] == "";
    assert SiteLink + "" == SiteLink;
  }

  /** The `forEach` over `.byline.post-author .post-author-label`. */
  method RewriteAuthorLabels(labels: array<string>)
    modifies labels
    ensures forall i :: 0 <= i < labels.Length ==> labels[i] == AuthorLabel(old(labels[i]))
  {
    var i := 0;
    while i < labels.Length
      invariant 0 <= i <= labels.Length
      invariant forall k :: 0 <= k < i ==> labels[k] == AuthorLabel(old(labels[k]))
      invariant forall k :: i <= k < labels.Length ==> labels[k] == old(labels[k])
    {
      labels[i] := AuthorLabel(labels[i]);
      i := i + 1;
    }
  }
}
