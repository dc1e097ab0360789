/**
 * The client's catalog logic (App.jsx): the image resolver imgSrcFor, the load effect that
 * falls back from the live endpoint to the bundled snapshot, and the team filter. Fetches are
 * replaced by their outcomes; the team filter value is an ordinary argument.
 */
module AppCatalog {
  import opened Wrappers
  import opened JsStrings
  import opened UriEncoding
  import Seqs
  import Products

  /** A product object as the client receives it; only the keys the client reads are modelled. */
  datatype Item = Item(
    imageURL: Option<string>,
    image: Option<string>,
    img: Option<string>,
    photo: Option<string>,
    picture: Option<string>,
    team: Option<seq<string>>)

  // ----- imgSrcFor -----

  const ImagePrefix: string := "/images/"

  /** The image keys, in the order the resolver tries them. */
  function ItemAliases(q: Item): seq<Option<string>> {
    [q.imageURL, q.image, q.img, q.photo, q.picture]
  }

  /**
   * `(p && (p.imageURL || p.image || p.img || p.photo || p.picture)) || ""`: empty exactly for
   * a null product or one whose five keys are all falsy, and otherwise one of those values.
   */
  function RawImage(p: Option<Item>): (raw: string)
    ensures raw == "" <==> p.None? || forall j :: 0 <= j < 5 ==> !Truthy(ItemAliases(p.value)[j])
    ensures raw != "" ==> Some(raw) in ItemAliases(p.value)
  {
    if p.None? then ""
    else OrElse(FirstTruthy(ItemAliases(p.value)), "")
  }

  /** imgSrcFor(p). */
  function ImgSrcFor(p: Option<Item>): (r: string)
    ensures r != ""
  {
    var raw := RawImage(p);
    if LooksLikeHttpUrl(raw) then
      EncodeURI(raw)
    else
      EncodeURI(ImagePrefix + raw)
  }

  /** The raw reference is the earliest truthy of imageURL, image, img, photo, picture. */
  lemma RawImageAlias(q: Item, k: nat)
    requires k < 5
    requires Truthy(ItemAliases(q)[k])
    requires forall j :: 0 <= j < k ==> !Truthy(ItemAliases(q)[j])
    ensures RawImage(Some(q)) == ItemAliases(q)[k].value
  {
    FirstTruthyIsEarliest(ItemAliases(q), k);
  }

  /** encodeURI keeps an http(s) prefix, so an encoded URL still looks like a URL. */
  lemma EncodedUrlIsUrl(raw: string)
    requires LooksLikeHttpUrl(raw)
    ensures LooksLikeHttpUrl(EncodeURI(raw))
  {
    var scheme := if StartsWithIgnoreCase(raw, "http://") then "http://" else "https://";
    var head, tail := raw[..|scheme|], raw[|scheme|..];
    assert raw == head + tail;
    assert AllUnescaped(head) by {
      forall i | 0 <= i < |head| ensures IsUnescaped(head[i]) {
        assert AsciiLower(head[i]) in "https://";
      }
    }
    EncodeURIAppend(head, tail);
    UnescapedIdentity(head);
    IgnoreCasePrefix(head, EncodeURI(tail), scheme);
  }

  lemma IgnoreCasePrefix(a: string, b: string, p: string)
    requires StartsWithIgnoreCase(a, p)
    ensures StartsWithIgnoreCase(a + b, p)
  {
    forall i | 0 <= i < |p| ensures AsciiLower((a + b)[i]) == p[i] {
      assert (a + b)[i] == a[i];
    }
  }

  /** A URL is encoded without prefix; anything else is encoded behind "/images/". */
  lemma ImgSrcForCases(p: Option<Item>)
    ensures LooksLikeHttpUrl(RawImage(p)) ==>
              ImgSrcFor(p) == EncodeURI(RawImage(p)) && LooksLikeHttpUrl(ImgSrcFor(p))
    ensures !LooksLikeHttpUrl(RawImage(p)) ==>
              ImgSrcFor(p) == ImagePrefix + EncodeURI(RawImage(p)) && StartsWith(ImgSrcFor(p), ImagePrefix)
  {
    var raw := RawImage(p);
    if LooksLikeHttpUrl(raw) {
      EncodedUrlIsUrl(raw);
    } else {
      EncodeURIAppend(ImagePrefix, raw);
      UnescapedIdentity(ImagePrefix);
    }
  }

  /** With no image key at all the resolver yields the bare directory "/images/". */
  lemma ImgSrcForMissing(p: Option<Item>)
    requires RawImage(p) == ""
    ensures ImgSrcFor(p) == ImagePrefix
  {
    assert ImagePrefix + "" == ImagePrefix;
    UnescapedIdentity(ImagePrefix);
  }

  /** The object the client receives for a product the live endpoint served. */
  function FromServer(p: Products.Product): (q: Item)
    ensures q.image == Some(p.image) && q.team == Some(p.team)
  {
    Item(None, Some(p.image), None, None, None, Some(p.team))
  }

  /** The server's image path is prefixed a second time and encoded a second time. */
  lemma ServerPathReprefixed(p: Products.Product)
    requires p.image != "" && !LooksLikeHttpUrl(p.image)
    ensures ImgSrcFor(Some(FromServer(p))) == ImagePrefix + EncodeURI(p.image)
  {
    FirstTruthyIsEarliest([None, Some(p.image), None, None, None], 1);
    ImgSrcForCases(Some(FromServer(p)));
  }

  /** The placeholder is a site path that encodeURI leaves as it is (a parameter, for the reason given at UrlEscapeExample). */
  lemma PlaceholderIsPlainPath(s: string)
    requires s == Products.Placeholder
    ensures s != "" && !LooksLikeHttpUrl(s) && EncodeURI(s) == s
  {
    SlashIsNotUrl(s);
    UnescapedIdentity(s);
  }

  /** The served placeholder "/images/placeholder.jpg" becomes "/images//images/placeholder.jpg". */
  lemma PlaceholderReprefixed(p: Products.Product)
    requires p.image == Products.Placeholder
    ensures ImgSrcFor(Some(FromServer(p))) == ImagePrefix + Products.Placeholder
  {
    PlaceholderIsPlainPath(p.image);
    ServerPathReprefixed(p);
  }

  /** encodeURI escapes the escape character itself. */
  lemma EncodePercentSign(rest: string)
    requires AllUnescaped(rest)
    ensures EncodeURI("%" + rest) == "%25" + rest
  {
    assert ("%" + rest)[0] == '%' && ("%" + rest)[1..] == rest;
    assert !IsUnescaped('%');
    assert Utf8('%') == [37];
    assert PercentOctets([37]) == PercentOctet(37);
    assert HexDigit(2) == '2' && HexDigit(5) == '5';
    UnescapedIdentity(rest);
  }

  /** The first image alias is the raw reference, and an https one is encoded as a whole. */
  lemma ImgSrcForFirstUrl(raw: string)
    requires raw != "" && LooksLikeHttpUrl(raw)
    ensures ImgSrcFor(Some(Item(Some(raw), None, None, None, None, None))) == EncodeURI(raw)
  {
  }

  /** A URL that already holds an escape has its '%' escaped again: "%2F" becomes "%252F". */
  lemma UrlEscapeReencoded(host: string, rest: string)
    requires LooksLikeHttpUrl(host) && AllUnescaped(host) && AllUnescaped(rest)
    ensures ImgSrcFor(Some(Item(Some(host + "%" + rest), None, None, None, None, None))) == host + "%25" + rest
  {
    var tail := "%" + rest;
    var raw := host + tail;
    assert raw == host + "%" + rest;
    assert LooksLikeHttpUrl(raw) by {
      UrlNotEmpty(host);
      assert raw[..|host|] == host;
    }
    ImgSrcForFirstUrl(raw);
    EncodeURIAppend(host, tail);
    assert EncodeURI(raw) == EncodeURI(host) + EncodeURI(tail);
    UnescapedIdentity(host);
    EncodePercentSign(rest);
    assert EncodeURI(raw) == host + ("%25" + rest);
  }

  /**
   * The instance https://x/a%2F, which imgSrcFor turns into https://x/a%252F. The strings are
   * parameters fixed by the precondition, so that the solver works with the general lemma above
   * instead of unfolding encodeURI over a literal character by character.
   */
  lemma UrlEscapeExample(host: string, rest: string)
    requires host == "https://x/a" && rest == "2F"
    ensures ImgSrcFor(Some(Item(Some(host + "%" + rest), None, None, None, None, None))) == host + "%25" + rest
  {
    assert AllUnescaped(host) && AllUnescaped(rest);
    assert StartsWithIgnoreCase(host, "https://");
    UrlEscapeReencoded(host, rest);
  }

  /**
   * The resolver as its comments describe it: URLs as they are, resolved site paths as they
   * are, bare names encoded behind "/images/".
   */
  function ImgSrcForResolved(p: Option<Item>): (r: string)
    ensures r != ""
  {
    var raw := RawImage(p);
    if LooksLikeHttpUrl(raw) then
      UrlNotEmpty(raw);
      raw
    else if StartsWith(raw, "/") then raw
    else
      EncodeURI(ImagePrefix + raw)
  }

  /** The corrected resolver shows every product the live endpoint serves at the server's own path. */
  lemma ResolvedServesServerImage(page: Products.Page)
    ensures ImgSrcForResolved(Some(FromServer(Products.Normalize(page)))) == Products.Normalize(page).image
  {
    var p := Products.Normalize(page);
    FirstTruthyIsEarliest([None, Some(p.image), None, None, None], 1);
    var aliases := Products.ImageAliases(Products.PropertiesOf(page));
    Products.NormalizeImageShape(FirstTruthy(aliases));
  }

  /** On bare file names the corrected resolver agrees with imgSrcFor. */
  lemma ResolvedAgreesOnBareNames(p: Option<Item>)
    requires !StartsWith(RawImage(p), "/")
    requires !LooksLikeHttpUrl(RawImage(p))
    ensures ImgSrcForResolved(p) == ImgSrcFor(p)
  {
  }

  // ----- the team filter -----

  /** `p.team || []`. */
  function TeamOf(p: Item): seq<string> {
    if p.team.Some? then p.team.value else []
  }

  /** An item without a team never passes a filter, and one is kept exactly when its team lists the tag. */
  lemma TeamFilterNeedsTeam(items: seq<Item>, tag: string)
    requires tag != ""
    ensures forall x :: x in TeamFilter(items, Some(tag)) ==> x.team.Some? && tag in x.team.value
    ensures forall x :: x in items && x.team.None? ==> x !in TeamFilter(items, Some(tag))
  {
  }

  /** The useMemo over items and teamFilter. */
  function TeamFilter(items: seq<Item>, teamFilter: Option<string>): (r: seq<Item>)
    ensures !Truthy(teamFilter) ==> r == items
    ensures Truthy(teamFilter) ==> forall i :: 0 <= i < |r| ==> teamFilter.value in TeamOf(r[i])
    ensures Truthy(teamFilter) ==> forall x :: x in r <==> x in items && teamFilter.value in TeamOf(x)
    ensures Truthy(teamFilter) ==>
              forall x :: multiset(r)[x] == if teamFilter.value in TeamOf(x) then multiset(items)[x] else 0
    ensures Seqs.IsSubsequence(r, items)
  {
    if !Truthy(teamFilter) then
      SubsequenceOfItself(items);
      items
    else
      var tag := teamFilter.value;
      Seqs.Filter(items, (p: Item) => tag in TeamOf(p))
  }

  lemma {:induction false} SubsequenceOfItself(s: seq<Item>)
    ensures Seqs.IsSubsequence(s, s)
  {
    if s != [] {
      SubsequenceOfItself(s[1..]);
    }
  }

  /** Products tagged ["U12", "U14"] and ["U14"], filtered by "U12": only the first remains. */
  lemma TeamFilterExample(a: Item, b: Item)
    requires a.team == Some(["U12", "U14"]) && b.team == Some(["U14"])
    ensures TeamFilter([a, b], Some("U12")) == [a]
  {
  }

  // ----- the load effect -----

  const ApiUrl: string := "/api/products"
  const SnapshotUrl: string := "/products.json"

  /** `j.products` of a parsed response. */
  datatype ProductsValue = Missing | NotArray | ArrayOf(list: seq<Item>)

  /** The first fetch: it throws (fetch or res.json()), or replies with res.ok and the parsed products. */
  datatype PrimaryOutcome = PrimaryThrew | PrimaryReplied(ok: bool, products: ProductsValue)

  /** The second fetch: it throws, or its JSON holds `products` (None when that key is falsy). */
  datatype FallbackOutcome = FallbackThrew | FallbackReplied(products: Option<seq<Item>>)

  /** `res.ok && Array.isArray(j.products) && j.products.length > 0`. */
  predicate AcceptsPrimary(o: PrimaryOutcome) {
    o.PrimaryReplied? && o.ok && o.products.ArrayOf? && |o.products.list| > 0
  }

  /**
   * The live answer is rejected when the fetch throws, when the status is not ok, when products
   * is missing or not an array, and when it is the empty array; anything else is accepted.
   */
  lemma AcceptsPrimaryCases(o: PrimaryOutcome)
    ensures o.PrimaryThrew? ==> !AcceptsPrimary(o)
    ensures o.PrimaryReplied? && !o.ok ==> !AcceptsPrimary(o)
    ensures o.PrimaryReplied? && (o.products.Missing? || o.products.NotArray?) ==> !AcceptsPrimary(o)
    ensures o == PrimaryReplied(true, ArrayOf([])) ==> !AcceptsPrimary(o)
    ensures o.PrimaryReplied? && o.ok && o.products.ArrayOf? && o.products.list != [] ==> AcceptsPrimary(o)
  {
  }

  /** `j2.products || []`: the snapshot's list, or no items when it has none. */
  function SnapshotItems(o: FallbackOutcome): (r: seq<Item>)
    requires o.FallbackReplied?
    ensures o.products.None? ==> r == []
    ensures r == [] <==> o.products.None? || o.products.value == []
    ensures r != [] ==> o.products == Some(r)
  {
    if o.products.Some? then o.products.value else []
  }

  /** The component state the effect updates. */
  class CatalogLoader {
    var items: seq<Item>
    var loading: bool
    /** The URLs fetched so far, in order. */
    var requested: seq<string>

    /** `useState([])` and `useState(true)`. */
    constructor ()
      ensures items == [] && loading && requested == []
    {
      items := [];
      loading := true;
      requested := [];
    }

    /**
     * The async body of the effect. `rejected` is true when the fallback fetch throws: the
     * finally block still clears loading, and the promise then rejects unhandled.
     */
    method Load(primary: PrimaryOutcome, fallback: FallbackOutcome) returns (rejected: bool)
      modifies this
      ensures !loading
      ensures AcceptsPrimary(primary) ==>
                items == primary.products.list && requested == old(requested) + [ApiUrl] && !rejected
      ensures !AcceptsPrimary(primary) ==> requested == old(requested) + [ApiUrl, SnapshotUrl]
      ensures !AcceptsPrimary(primary) && fallback.FallbackReplied? ==> items == SnapshotItems(fallback) && !rejected
      ensures !AcceptsPrimary(primary) && fallback.FallbackThrew? ==> items == old(items) && rejected
    {
      rejected := false;
      requested := requested + [ApiUrl];
      if primary.PrimaryReplied? && primary.ok {
        if primary.products.ArrayOf? && |primary.products.list| > 0 {
          items := primary.products.list;
          loading := false;
          return;
        }
      }
      requested := requested + [SnapshotUrl];
      if fallback.FallbackReplied? {
        items := if fallback.products.Some? then fallback.products.value else [];
      } else {
        rejected := true;
      }
      loading := false;
    }
  }

  /**
   * Mounting App: fresh state, then the effect. Loading always ends, after one request when the
   * live list is accepted and after exactly one more otherwise; a throwing fallback leaves [].
   */
  method Mount(primary: PrimaryOutcome, fallback: FallbackOutcome)
      returns (items: seq<Item>, loading: bool, requested: seq<string>)
    ensures !loading
    ensures 1 <= |requested| <= 2 && requested[0] == ApiUrl
    ensures |requested| == 1 <==> AcceptsPrimary(primary)
    ensures AcceptsPrimary(primary) ==> items == primary.products.list && items != []
    ensures !AcceptsPrimary(primary) ==> requested[1] == SnapshotUrl
    ensures !AcceptsPrimary(primary) && fallback.FallbackReplied? ==> items == SnapshotItems(fallback)
    ensures !AcceptsPrimary(primary) && fallback.FallbackThrew? ==> items == []
  {
    var state := new CatalogLoader();
    var _ := state.Load(primary, fallback);
    items, loading, requested := state.items, state.loading, state.requested;
  }
}
