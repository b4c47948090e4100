/**
 * The shape of one entry of a Blogger JSON feed, as both scripts read it
 * (`entry.title.$t`, `entry.link[]`, `entry.published.$t`,
 * `entry.media$thumbnail.url`, `entry.content.$t`, `entry.summary.$t`,
 * `entry.category[].term`). Dates are timestamps.
 */
module BloggerFeed {
  import opened Wrappers

  datatype Link = Link(rel: string, href: string)

  /**
   * `thumbnail` is `media$thumbnail.url` when `media$thumbnail` is present;
   * `category` is the `category` array when present.
   */
  datatype Entry = Entry(
    title: string,
    links: seq<Link>,
    published: int,
    thumbnail: Option<string>,
    content: Option<string>,
    summary: Option<string>,
    category: Option<seq<string>>)

  /**
   * `entry.link.find(l => l.rel === 'alternate')?.href`: the first link whose
   * rel is "alternate". `None` is the case where `.href` throws.
   */
  function AlternateHref(links: seq<Link>): (r: Option<string>)
    ensures r.Some? <==> exists i :: 0 <= i < |links| && links[i].rel == "alternate"
    ensures r.Some? ==> exists i :: 0 <= i < |links| && links[i].rel == "alternate" && r.value == links[i].href
                                    && forall j :: 0 <= j < i ==> links[j].rel != "alternate"
  {
    if links == [] then None
    else if links[0].rel == "alternate" then Some(links[0].href)
    else
      var r := AlternateHref(links[1..]);
      assert forall i :: 1 <= i < |links| ==> links[i] == links[1..][i - 1];
      r
  }
}
