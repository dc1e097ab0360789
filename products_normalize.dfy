/**
 * The catalog service's per-record logic (netlify/functions/products.js): the image path
 * normaliser, the mapping of a Notion page to a product, and the Active/absent status filter.
 */
module Products {
  import opened Wrappers
  import opened JsStrings
  import opened UriEncoding
  import Seqs

  const Placeholder: string := "/images/placeholder.jpg"
  const ImageRoot: string := "/images/"

  /** normalizeImage(raw): a servable path for a raw image reference. */
  function NormalizeImage(raw: Option<string>): (r: string)
    ensures r != ""
    ensures !Truthy(raw) ==> r == Placeholder
  {
    if !Truthy(raw) then Placeholder
    else
      var s := Trim(raw.value);
      if LooksLikeHttpUrl(s) then
        UrlNotEmpty(s);
        s
      else if StartsWith(s, "/") then
        EncodeURI(s)
      else
        EncodeURI(ImageRoot + s)
  }

  /** A trimmed reference that looks like an http(s) URL is returned trimmed, without encoding. */
  lemma NormalizeImageUrl(raw: string)
    requires raw != "" && LooksLikeHttpUrl(Trim(raw))
    ensures NormalizeImage(Some(raw)) == Trim(raw)
  {
  }

  /** A trimmed site path starting with '/' is encoded in place: no prefix, still starting with '/'. */
  lemma NormalizeImageSitePath(raw: string)
    requires raw != "" && StartsWith(Trim(raw), "/")
    ensures NormalizeImage(Some(raw)) == EncodeURI(Trim(raw))
    ensures StartsWith(NormalizeImage(Some(raw)), "/")
  {
    var s := Trim(raw);
    SlashIsNotUrl(s);
  }

  /** Any other reference becomes the image root followed by its encoding. */
  lemma NormalizeImageBareName(raw: string)
    requires raw != ""
    requires !LooksLikeHttpUrl(Trim(raw)) && !StartsWith(Trim(raw), "/")
    ensures NormalizeImage(Some(raw)) == ImageRoot + EncodeURI(Trim(raw))
    ensures StartsWith(NormalizeImage(Some(raw)), ImageRoot)
  {
    EncodeURIAppend(ImageRoot, Trim(raw));
    UnescapedIdentity(ImageRoot);
  }

  /** A site path made only of unescaped characters is returned exactly as written. */
  lemma NormalizeImageSafePath(raw: string)
    requires raw != "" && StartsWith(Trim(raw), "/") && AllUnescaped(Trim(raw))
    ensures NormalizeImage(Some(raw)) == Trim(raw)
  {
    NormalizeImageSitePath(raw);
    UnescapedIdentity(Trim(raw));
  }

  /** Every normalised image is an http(s) URL or a site path beginning with '/'. */
  lemma NormalizeImageShape(raw: Option<string>)
    ensures var r := NormalizeImage(raw); LooksLikeHttpUrl(r) || StartsWith(r, "/")
  {
    if Truthy(raw) {
      var s := Trim(raw.value);
      if !LooksLikeHttpUrl(s) {
        if StartsWith(s, "/") {
          NormalizeImageSitePath(raw.value);
        } else {
          NormalizeImageBareName(raw.value);
        }
      }
    }
  }

  // ----- Notion records -----

  /**
   * The property bag of one Notion page, one optional value per path the normaliser reads.
   * A path that is missing anywhere along its optional chain is None.
   */
  datatype Properties = Properties(
    imageURLUrl: Option<string>,         // ImageURL.url
    imageFileUrl: Option<string>,        // Image.files[0].file.url
    imageExternalUrl: Option<string>,    // Image.files[0].external.url
    imageUrl: Option<string>,            // Image.url
    imageRichText: Option<string>,       // Image.rich_text[0].plain_text
    imageTitle: Option<string>,          // Image.title[0].plain_text
    pictureFileUrl: Option<string>,      // Picture.files[0].file.url
    pictureExternalUrl: Option<string>,  // Picture.files[0].external.url
    statusName: Option<string>,          // Status.select.name
    nameTitle: Option<string>,           // Name.title[0].plain_text
    priceNumber: Option<real>,           // Price.number
    taglineRichText: Option<string>,     // Tagline.rich_text[0].plain_text
    stripeLinkUrl: Option<string>,       // StripeLink.url
    stripLinkUrl: Option<string>,        // StripLink.url (historical misspelling)
    squareLinkUrl: Option<string>,       // SquareLink.url
    teamNames: Option<seq<string>>       // Team.multi_select[*].name
  )

  /** `{}`: a property bag in which every path is missing. */
  const NoProperties := Properties(None, None, None, None, None, None, None, None,
                                   None, None, None, None, None, None, None, None)

  /** One result of a Notion database query. */
  datatype Page = Page(id: string, properties: Option<Properties>)

  datatype Product = Product(
    id: string,
    name: string,
    price: real,
    tagline: string,
    image: string,
    stripeLink: string,
    squareLink: string,
    team: seq<string>,
    status: Option<string>)

  /** The image aliases, in the order the normaliser tries them. */
  function ImageAliases(s: Properties): seq<Option<string>> {
    [s.imageURLUrl, s.imageFileUrl, s.imageExternalUrl, s.imageUrl,
     s.imageRichText, s.imageTitle, s.pictureFileUrl, s.pictureExternalUrl]
  }

  /** `s.Status?.select?.name || null`. */
  function StatusOf(s: Properties): (r: Option<string>)
    ensures r.Some? ==> r == s.statusName && r.value != ""
    ensures r.None? <==> !Truthy(s.statusName)
  {
    if Truthy(s.statusName) then s.statusName else None
  }

  /** The raw-page-to-product map of the handler. */
  function Normalize(p: Page): (r: Product)
    ensures r.id == p.id
    ensures r.name != "" && r.image != ""
    ensures r.status.Some? ==> r.status.value != ""
  {
    var s := PropertiesOf(p);
    Product(
      p.id,
      OrElse(s.nameTitle, "Untitled"),
      if s.priceNumber.Some? then s.priceNumber.value else 0.0,
      OrElse(s.taglineRichText, ""),
      NormalizeImage(FirstTruthy(ImageAliases(s))),
      OrElse(FirstTruthy([s.stripeLinkUrl, s.stripLinkUrl]), ""),
      OrElse(s.squareLinkUrl, ""),
      if s.teamNames.Some? then s.teamNames.value else [],
      StatusOf(s))
  }

  /** The property bag Normalize reads: `p.properties || {}`. */
  function PropertiesOf(p: Page): Properties {
    if p.properties.Some? then p.properties.value else NoProperties
  }

  /** A page without a properties object is read as the empty bag `{}`. */
  lemma NormalizeMissingProperties(id: string)
    ensures Normalize(Page(id, None)) == Normalize(Page(id, Some(NoProperties)))
  {
  }

  /** A page with no usable property gets every documented default. */
  lemma NormalizeDefaults(p: Page)
    requires PropertiesOf(p) == NoProperties
    ensures Normalize(p) == Product(p.id, "Untitled", 0.0, "", Placeholder, "", "", [], None)
  {
  }

  /** Price falls back to 0 only when Price.number is missing; a present number (0 included) is kept. */
  lemma NormalizePrice(p: Page)
    ensures PropertiesOf(p).priceNumber.None? ==> Normalize(p).price == 0.0
    ensures PropertiesOf(p).priceNumber.Some? ==> Normalize(p).price == PropertiesOf(p).priceNumber.value
  {
  }

  /**
   * Name, tagline and square link take their Notion text when it is a non-empty string and
   * their default otherwise; the team is the list of names, or [] when Team is missing.
   */
  lemma NormalizeFields(p: Page)
    ensures Truthy(PropertiesOf(p).nameTitle) ==> Normalize(p).name == PropertiesOf(p).nameTitle.value
    ensures !Truthy(PropertiesOf(p).nameTitle) ==> Normalize(p).name == "Untitled"
    ensures Truthy(PropertiesOf(p).taglineRichText) ==> Normalize(p).tagline == PropertiesOf(p).taglineRichText.value
    ensures !Truthy(PropertiesOf(p).taglineRichText) ==> Normalize(p).tagline == ""
    ensures Truthy(PropertiesOf(p).squareLinkUrl) ==> Normalize(p).squareLink == PropertiesOf(p).squareLinkUrl.value
    ensures !Truthy(PropertiesOf(p).squareLinkUrl) ==> Normalize(p).squareLink == ""
    ensures PropertiesOf(p).teamNames.Some? ==> Normalize(p).team == PropertiesOf(p).teamNames.value
    ensures PropertiesOf(p).teamNames.None? ==> Normalize(p).team == []
    ensures Truthy(PropertiesOf(p).statusName) ==> Normalize(p).status == PropertiesOf(p).statusName
    ensures !Truthy(PropertiesOf(p).statusName) ==> Normalize(p).status == None
  {
  }

  /** The image comes from the earliest truthy alias, and is the placeholder when there is none. */
  lemma NormalizeImageAlias(p: Page, k: nat)
    requires k < 8
    requires Truthy(ImageAliases(PropertiesOf(p))[k])
    requires forall j :: 0 <= j < k ==> !Truthy(ImageAliases(PropertiesOf(p))[j])
    ensures Normalize(p).image == NormalizeImage(ImageAliases(PropertiesOf(p))[k])
  {
    FirstTruthyIsEarliest(ImageAliases(PropertiesOf(p)), k);
  }

  lemma NormalizeNoImage(p: Page)
    requires forall j :: 0 <= j < 8 ==> !Truthy(ImageAliases(PropertiesOf(p))[j])
    ensures Normalize(p).image == Placeholder
  {
  }

  /** StripeLink wins; the misspelt StripLink is used only when StripeLink is falsy. */
  lemma NormalizeStripeLink(p: Page)
    ensures var s := PropertiesOf(p);
            Normalize(p).stripeLink ==
              if Truthy(s.stripeLinkUrl) then s.stripeLinkUrl.value
              else if Truthy(s.stripLinkUrl) then s.stripLinkUrl.value
              else ""
  {
    var s := PropertiesOf(p);
    var links := [s.stripeLinkUrl, s.stripLinkUrl];
    if Truthy(s.stripeLinkUrl) {
      FirstTruthyIsEarliest(links, 0);
    } else if Truthy(s.stripLinkUrl) {
      FirstTruthyIsEarliest(links, 1);
    } else {
      assert forall j :: 0 <= j < |links| ==> !Truthy(links[j]);
    }
  }

  /** `pages.map(...)`: exactly one product per page, in page order. */
  function NormalizeAll(pages: seq<Page>): (r: seq<Product>)
    ensures |r| == |pages|
    ensures forall i :: 0 <= i < |r| ==> r[i] == Normalize(pages[i])
  {
    seq(|pages|, i requires 0 <= i < |pages| => Normalize(pages[i]))
  }

  /** The filter predicate `!p.status || p.status === "Active"`. */
  predicate Publishable(p: Product) {
    !Truthy(p.status) || p.status == Some("Active")
  }

  /** The filter compares the status exactly: only no status, "" and "Active" pass. */
  lemma PublishableStatus(p: Product)
    ensures Publishable(p) <==> p.status == None || p.status == Some("") || p.status == Some("Active")
    ensures p.status == Some("active") ==> !Publishable(p)
    ensures p.status == Some("Archived") ==> !Publishable(p)
  {
  }

  /** The service's status filter: keeps a product exactly when it is publishable, order preserved. */
  function FilterPublishable(ps: seq<Product>): (r: seq<Product>)
    ensures forall i :: 0 <= i < |r| ==> Publishable(r[i])
    ensures forall x :: x in r <==> x in ps && Publishable(x)
    ensures forall x :: multiset(r)[x] == if Publishable(x) then multiset(ps)[x] else 0
    ensures Seqs.IsSubsequence(r, ps)
  {
    Seqs.Filter(ps, Publishable)
  }

  /** On normalised products the filter keeps exactly those with no status or the status "Active". */
  lemma PublishableNormalized(p: Page)
    ensures Publishable(Normalize(p)) <==> !Truthy(PropertiesOf(p).statusName) || PropertiesOf(p).statusName == Some("Active")
  {
  }

  /** The map and filter of the handler: normalise every page, then drop unpublishable products. */
  function CatalogProducts(pages: seq<Page>): (r: seq<Product>)
    ensures |r| <= |pages|
    ensures forall i :: 0 <= i < |r| ==> Publishable(r[i]) && r[i].name != "" && r[i].image != ""
    ensures forall x :: x in r <==> x in NormalizeAll(pages) && Publishable(x)
    ensures forall x :: multiset(r)[x] == if Publishable(x) then multiset(NormalizeAll(pages))[x] else 0
    ensures Seqs.IsSubsequence(r, NormalizeAll(pages))
  {
    var normalized := NormalizeAll(pages);
    assert forall x :: x in normalized ==> x.name != "" && x.image != "";
    FilterPublishable(normalized)
  }

  /** A catalog whose pages all lack a status field is published whole. */
  lemma CatalogWithoutStatus(pages: seq<Page>)
    requires forall i :: 0 <= i < |pages| ==> !Truthy(PropertiesOf(pages[i]).statusName)
    ensures CatalogProducts(pages) == NormalizeAll(pages)
  {
    Seqs.FilterKeepsAll(NormalizeAll(pages), Publishable);
  }
}
