/**
 * The `Cache` object of he/all.js over `localStorage`, and the cache keys
 * the two fetchers use. Each stored item is the JSON text
 * `{value, timestamp}`; a lookup is fresh when it is less than five
 * minutes old. Any storage failure reads as "absent" or "nothing written".
 */
module FeedCache {
  import opened Wrappers
  import opened JsText
  import opened Posts

  /** `CACHE_DURATION`: five minutes in milliseconds. */
  const TtlMs: int := 5 * 60 * 1000

  /**
   * What `JSON.parse(localStorage.getItem(key))` yields for a stored item:
   * a record written by `set`, or text that throws or parses to something
   * without a usable timestamp.
   */
  datatype Record = Entry(value: seq<Post>, timestamp: int) | Garbage

  /** `localStorage` as the cache sees it. */
  class Cache {
    /** The stored items by key. */
    var entries: map<string, Record>
    /** Storage disabled: every `getItem` and `setItem` throws. */
    var broken: bool

    constructor (entries: map<string, Record>, broken: bool)
      ensures this.entries == entries && this.broken == broken
    {
      this.entries := entries;
      this.broken := broken;
    }

    /**
     * `Cache.get(key)` at time `now`: the stored value when the record is
     * strictly younger than the TTL, otherwise nothing; never throws.
     */
    function Get(key: string, now: int): (r: Option<seq<Post>>)
      reads this
      ensures r.Some? <==> !broken && key in entries && entries[key].Entry?
                           && now - entries[key].timestamp < TtlMs
      ensures r.Some? ==> r.value == entries[key].value
    {
      if broken || key !in entries then None
      else match entries[key]
        case Garbage => None
        case Entry(value, timestamp) => if now - timestamp < TtlMs then Some(value) else None
    }

    /**
     * `Cache.set(key, value)` at time `now`. `accepted` is false when the
     * browser refuses the write (quota exceeded); a refused write or a
     * broken storage leaves every item as it was.
     */
    method Set(key: string, value: seq<Post>, now: int, accepted: bool)
      modifies this
      ensures broken == old(broken)
      ensures entries == if old(broken) || !accepted then old(entries)
                         else old(entries)[key := Entry(value, now)]
      ensures !broken && accepted ==> forall t :: t - now < TtlMs ==> Get(key, t) == Some(value)
      ensures !broken && accepted ==> forall t :: t - now >= TtlMs ==> Get(key, t) == None
      ensures forall k, t :: k != key ==> Get(k, t) == old(Get(k, t))
    {
      if !broken && accepted {
        entries := entries[key := Entry(value, now)];
      }
    }
  }

  /** `catId || 'all'` for the WordPress category id: a missing id or 0 reads 'all'. */
  function WpCategoryPart(catId: Option<int>): string {
    if catId.Some? && catId.value != 0 then IntToString(catId.value) else "all"
  }

  /** `category || 'all'` for the Blogger label: a missing or empty label reads 'all'. */
  function BlgCategoryPart(category: Option<string>): string {
    if Truthy(category) then category.value else "all"
  }

  /** The shared shape of both key templates: `${kind}${source}_${part}_${count}`. */
  function Key(kind: string, source: string, part: string, count: int): string {
    kind + source + "_" + part + "_" + IntToString(count)
  }

  /** `wp_${source}_${catId || 'all'}_${count}`. */
  function WpKey(source: string, catId: Option<int>, count: int): string {
    Key("wp_", source, WpCategoryPart(catId), count)
  }

  /** `blg_${source}_${category || 'all'}_${count}`. */
  function BlgKey(source: string, category: Option<string>, count: int): string {
    Key("blg_", source, BlgCategoryPart(category), count)
  }

  /**
   * Keys that differ in one field only are different keys: two sources,
   * two category parts, or two counts never share a cache item. Keys that
   * differ in two fields can coincide, because `_` may occur inside a
   * source or a category (`BlgKeysCanCollide`).
   */
  lemma KeyFieldsSeparate(kind: string, s1: string, s2: string, p1: string, p2: string, n1: int, n2: int)
    ensures s1 != s2 ==> Key(kind, s1, p1, n1) != Key(kind, s2, p1, n1)
    ensures p1 != p2 ==> Key(kind, s1, p1, n1) != Key(kind, s1, p2, n1)
    ensures n1 != n2 ==> Key(kind, s1, p1, n1) != Key(kind, s1, p1, n2)
  {
    var c1, c2 := IntToString(n1), IntToString(n2);
    MiddleDiffers(kind, s1, s2, "_" + p1 + "_" + c1);
    assert Key(kind, s1, p1, n1) == kind + s1 + ("_" + p1 + "_" + c1);
    assert Key(kind, s2, p1, n1) == kind + s2 + ("_" + p1 + "_" + c1);
    MiddleDiffers(kind + s1 + "_", p1, p2, "_" + c1);
    assert Key(kind, s1, p1, n1) == (kind + s1 + "_") + p1 + ("_" + c1);
    assert Key(kind, s1, p2, n1) == (kind + s1 + "_") + p2 + ("_" + c1);
    if n1 != n2 {
      var prefix := kind + s1 + "_" + p1 + "_";
      assert Key(kind, s1, p1, n1) == prefix + c1;
      assert Key(kind, s1, p1, n2) == prefix + c2;
      if prefix + c1 == prefix + c2 {
        assert c1 == (prefix + c1)[|prefix|..];
        assert c2 == (prefix + c2)[|prefix|..];
        IntToStringInjective(n1, n2);
      }
    }
  }

  /** The key template is not injective: source `a_b` with no category and source `a` with category `b_all` share a key. */
  lemma BlgKeysCanCollide()
    ensures BlgKey("a_b", None, 5) == BlgKey("a", Some("b_all"), 5)
    ensures BlgKey("a_b", None, 5) == "blg_a_b_all_" + IntToString(5)
  {
    assert "blg_" + "a_b" + "_" + "all" + "_" == "blg_" + "a" + "_" + "b_all" + "_";
  }

  lemma MiddleDiffers(prefix: string, a: string, b: string, suffix: string)
    ensures a != b ==> prefix + a + suffix != prefix + b + suffix
  {
    if prefix + a + suffix == prefix + b + suffix {
      var x := prefix + a + suffix;
      assert |a| == |b|;
      assert a == x[|prefix|..|prefix| + |a|];
      assert b == x[|prefix|..|prefix| + |b|];
    }
  }

  /** A WordPress key and a Blogger key never collide. */
  lemma KeysSeparateKinds(s1: string, c: Option<int>, n1: int, s2: string, l: Option<string>, n2: int)
    ensures WpKey(s1, c, n1) != BlgKey(s2, l, n2)
  {
    assert WpKey(s1, c, n1)[0] == 'w';
    assert BlgKey(s2, l, n2)[0] == 'b';
  }
}
