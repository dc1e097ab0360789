# Catalog aggregation and normalisation, modelled in Dafny

This project models the product-catalog pipeline of a small storefront. The model covers two sides.

The server side is the Netlify function `netlify/functions/products.js`. It reads a Notion database page by page, following Notion's `has_more` / `next_cursor` / `start_cursor` protocol. It maps each raw Notion page to a product, probing a fixed list of property aliases and falling back to defaults. It resolves the image reference into a servable path. It keeps only products whose status is absent or `"Active"`. It then answers with 200 and the products, with 404 and a reason when the Notion configuration is missing, or with 500 and an error message when a page request fails.

The client side is `App.jsx`. It holds a second image resolver, `imgSrcFor`. It has the load effect, which tries `/api/products`, falls back once to the bundled `/products.json`, and always leaves the loading state. It has the team filter, which selects items by an optional tag.

Modules:

- `Wrappers`: `Option` (JavaScript's null/undefined) and `Result`.
- `Seqs`: `Array.prototype.filter` (`Filter`) and the subsequence relation it is specified by.
- `UriEncoding`: `encodeURI` of ECMA-262 (section 19.2.6, "URI Handling Functions"). The unescaped set is ASCII letters and digits, `-_.!~*'()`, `;/?:@&=+$,` and `#`. Every other code point becomes its UTF-8 octets, each written `%XY` with upper-case hex digits. There is also a percent-decoder that inverts the encoding on ASCII text.
- `JsStrings`: truthiness, `a || b || …` chains, `String.prototype.trim` (ECMA-262 white space and line terminators), `startsWith`, and the regular expression `/^https?:\/\//i`.
- `Products`: `normalizeImage`, the Notion record, the record-to-product map and the status filter.
- `NotionQuery`: `notionQueryAll`. The do/while loop is a method over the sequence of responses the store gives to successive requests. It records each request it would send. It is proved equal to reference functions: `Requests` (the request log) and `Aggregate` (the concatenated results, or the error).
- `ProductsHandler`: `handler`, with the process environment as an explicit `Config` record.
- `AppCatalog`: `imgSrcFor`, the team filter, and the loader. The loader is a class with the component's `items` and `loading` state and the list of URLs fetched. `Mount` runs the effect on fresh state.

Points of the code that the model keeps as they are:

- `Price.number` is passed through with no sign check, so a negative price is served.
- Page ids are copied as they are, with no check that they are unique.
- Non-URL references are encoded with the whole of `encodeURI`.
- The client does not record whether its items came from the live endpoint or from the snapshot.
- The two image resolvers differ, and both are modelled as written:
  - `imgSrcFor` puts `/images/` in front of every non-URL value.
  - `imgSrcFor` encodes URLs too.
  - `imgSrcFor` has no placeholder.

## Model

| member | source | states |
|---|---|---|
| `Seqs.Filter` | netlify/functions/products.js:85 | `filter` keeps exactly the elements satisfying the predicate, with their multiplicities, as an order-preserving subsequence |
| `Seqs.FilterKeepsAll` | netlify/functions/products.js:84-85 | filtering a list whose every element passes returns the list unchanged |
| `UriEncoding.Utf8` | netlify/functions/products.js:8 | a code point is encoded as one to four UTF-8 octets, one exactly for ASCII, and that octet is the code itself |
| `UriEncoding.EncodeURI` | netlify/functions/products.js:8 | `enc` yields `""` only for `""`; an unescaped first character stays first, and any other first character opens a `%XY` escape |
| `UriEncoding.EncodeURIIdentity` | netlify/functions/products.js:8 | `enc(s) == s` if and only if every character of `s` is in encodeURI's unescaped set |
| `UriEncoding.EncodeURILength` | netlify/functions/products.js:8 | encoding never shortens a string, keeps the length exactly when nothing needs escaping, and at most multiplies it by twelve |
| `UriEncoding.EncodeURIAppend` | netlify/functions/products.js:14 | encodeURI of a concatenation is the concatenation of the encodings |
| `UriEncoding.EncodeURIAlphabet` | netlify/functions/products.js:8 | the output holds only unescaped characters, `%` and upper-case hex digits |
| `UriEncoding.DecodeEncodeAscii` | netlify/functions/products.js:8 | on ASCII text, percent-decoding inverts encodeURI |
| `JsStrings.FirstTruthy` | netlify/functions/products.js:59-68 | a chain of `||` alternatives ending in `null` gives a truthy alternative, and gives null exactly when every alternative is falsy |
| `JsStrings.FirstTruthyIsEarliest` | netlify/functions/products.js:59-68 | the chain picks the earliest truthy alternative |
| `JsStrings.Trim` | netlify/functions/products.js:11 | `trim` returns the slice of the input after its leading white space, with white space only after it and none at either end |
| `JsStrings.TrimUnchanged` | netlify/functions/products.js:11 | a string with no white space at either end is unchanged by `trim` |
| `JsStrings.TrimIdempotent` | netlify/functions/products.js:11 | trimming an already trimmed string changes nothing |
| `JsStrings.HttpUrlPattern` | netlify/functions/products.js:12 | `/^https?:\/\//i` matches `http://` and `HTTPS://` prefixes and rejects `ftp://`, `//` and a leading space |
| `JsStrings.UrlNotEmpty` | netlify/functions/products.js:12 | a string the pattern accepts has at least seven characters and starts with `h` or `H` |
| `JsStrings.SlashIsNotUrl` | netlify/functions/products.js:12-13 | a site path starting with `/` is never taken for a URL |
| `Products.NormalizeImage` | netlify/functions/products.js:9-15 | the result is never empty, and it is `/images/placeholder.jpg` for a null, undefined or empty raw value |
| `Products.NormalizeImageUrl` | netlify/functions/products.js:11-12 | a trimmed `http(s)://` reference (any case) is returned trimmed and unencoded |
| `Products.NormalizeImageSitePath` | netlify/functions/products.js:13 | a trimmed reference that starts with `/` becomes `encodeURI` of itself, with no prefix, and still starts with `/` |
| `Products.NormalizeImageBareName` | netlify/functions/products.js:14 | any other reference becomes `/images/` followed by its encoding, so it starts with `/images/` |
| `Products.NormalizeImageSafePath` | netlify/functions/products.js:8-13 | a site path made only of unescaped characters is returned exactly as written |
| `Products.NormalizeImageShape` | netlify/functions/products.js:9-15 | every normalised image is an http(s) URL or a path that starts with `/` |
| `Products.Normalize` | netlify/functions/products.js:57-83 | a product keeps its page's id and always has a non-empty name, a non-empty image and a status that is null or non-empty |
| `Products.NormalizeDefaults` | netlify/functions/products.js:58-81 | a page without properties gets name `Untitled`, price 0, empty tagline and links, the placeholder image, no team and a null status |
| `Products.NormalizeMissingProperties` | netlify/functions/products.js:58 | a page without a properties object is normalised exactly as one whose properties are `{}` |
| `Products.NormalizePrice` | netlify/functions/products.js:75 | price is 0 only when `Price.number` is missing, and a present number (0 included) is kept |
| `Products.NormalizeFields` | netlify/functions/products.js:70-81 | name, tagline and square link are their Notion text when it is non-empty and `Untitled`, `""`, `""` otherwise; team is the multi-select names or `[]`; status is the select name or null |
| `Products.NormalizeImageAlias` | netlify/functions/products.js:59-68 | the image comes from the earliest truthy alias in the order ImageURL.url, Image file/external/url/rich_text/title, Picture file/external |
| `Products.NormalizeNoImage` | netlify/functions/products.js:59-77 | with no truthy image alias the image is the placeholder |
| `Products.NormalizeStripeLink` | netlify/functions/products.js:78 | `stripeLink` is StripeLink, else the misspelt StripLink, else `""` |
| `Products.FilterPublishable` | netlify/functions/products.js:85 | only publishable products are kept, every publishable one is kept as often as it occurs, and order is preserved |
| `Products.PublishableStatus` | netlify/functions/products.js:85 | the filter passes a product exactly when its status is null, `""` or `Active`, compared case-sensitively, so `active` and `Archived` are dropped |
| `Products.PublishableNormalized` | netlify/functions/products.js:70-85 | a normalised product is kept exactly when its Status name is missing, empty or `Active` |
| `Products.CatalogProducts` | netlify/functions/products.js:57-85 | the served list is an order-preserving subsequence of the normalised pages that holds each publishable product as often as the pages give it and no other, and every product in it has a name and an image |
| `Products.CatalogWithoutStatus` | netlify/functions/products.js:84-85 | when no page has a status, every normalised product is served |
| `NotionQuery.ErrorMessage` | netlify/functions/products.js:30-33 | a failed page throws a message that starts with `Notion ` |
| `NotionQuery.NatToDecimal` | netlify/functions/products.js:32 | the status is printed as a non-empty string of decimal digits with no leading zero |
| `NotionQuery.NatToDecimalValue` | netlify/functions/products.js:32 | the printed digits read back as the status code |
| `NotionQuery.FirstStop` | netlify/functions/products.js:36-37 | the loop stops at the first response that fails, has `has_more` false or has an empty `next_cursor`, and every earlier response continues |
| `NotionQuery.StopConditions` | netlify/functions/products.js:30-37 | a rejected or non-ok response, `has_more` false and a falsy `next_cursor` each end the loop; otherwise it goes on with `next_cursor` as the next cursor |
| `NotionQuery.QueryAll` | netlify/functions/products.js:17-39 | the loop sends exactly the requests `Requests` describes, and returns the concatenated results or the error of the stopping page |
| `NotionQuery.RequestsShape` | netlify/functions/products.js:19-36 | one request per consumed response: the first carries no cursor, request k+1 carries response k's `next_cursor`, and all of them use the same database and token |
| `NotionQuery.StopsAtFirstEnd` | netlify/functions/products.js:36-37 | the first non-continuing response is where the loop stops, so requests issued equals responses consumed |
| `NotionQuery.AggregateFails` | netlify/functions/products.js:30-33 | the query fails, with no partial result, exactly when the stopping response is not ok, and a non-ok page gives its own status and text |
| `NotionQuery.CollectedFrom` | netlify/functions/products.js:35 | a record is in the accumulated list exactly when some consumed response returned it |
| `NotionQuery.ResultlessPageAddsNothing` | netlify/functions/products.js:35 | an ok response without `results` leaves the records collected so far unchanged, wherever it sits among the pages |
| `NotionQuery.MissingResults` | netlify/functions/products.js:35 | when no response carries `results`, the query succeeds with an empty list |
| `NotionQuery.ThreePages` | netlify/functions/products.js:17-39 | three pages of two records, the last with `has_more` false, give the six records in order after three requests |
| `ProductsHandler.ErrorText` | netlify/functions/products.js:96 | the error text is never empty: the message, or `Unknown error` when the message is empty |
| `ProductsHandler.ConfiguredIff` | netlify/functions/products.js:42-46 | the handler queries Notion exactly when NOTION_TOKEN is non-empty and NOTION_PRODUCTS_DB or NOTION_DB is non-empty |
| `ProductsHandler.Handle` | netlify/functions/products.js:41-99 | missing configuration gives 404 with `products: []` and a reason, and issues no request; otherwise at least one request is sent, each with NOTION_TOKEN and with NOTION_PRODUCTS_DB when that is non-empty and NOTION_DB otherwise; a failed query gives 500 with `error`; success gives 200 with the filtered products; no-store JSON headers every time |
| `ProductsHandler.UpstreamErrorText` | netlify/functions/products.js:92-97 | a failed page surfaces as `Notion <status>: <text>`, never as `Unknown error` |
| `AppCatalog.RawImage` | App.jsx:8-9 | the raw image is `""` exactly for a null product or one whose five image keys are all falsy, and otherwise it is the value of one of those keys |
| `AppCatalog.RawImageAlias` | App.jsx:8-9 | the raw image is the earliest truthy of `imageURL`, `image`, `img`, `photo`, `picture` |
| `AppCatalog.ImgSrcFor` | App.jsx:7-13 | the resolver never yields an empty string |
| `AppCatalog.ImgSrcForCases` | App.jsx:10-12 | an http(s) value becomes `encodeURI(raw)` and still looks like a URL; anything else becomes `/images/` followed by its encoding |
| `AppCatalog.ImgSrcForMissing` | App.jsx:9-12 | an item with no image yields `/images/` |
| `AppCatalog.ServerPathReprefixed` | App.jsx:11 | a non-URL image from the live endpoint is prefixed with `/images/` and encoded a second time |
| `AppCatalog.PlaceholderReprefixed` | App.jsx:11 | the served placeholder becomes `/images//images/placeholder.jpg` |
| `AppCatalog.UrlEscapeReencoded` | App.jsx:10-12 | a URL that already holds a `%` escape gets that `%` escaped again |
| `AppCatalog.UrlEscapeExample` | App.jsx:10-12 | `https://x/a%2F` comes out as `https://x/a%252F` |
| `AppCatalog.ImgSrcForResolved` | App.jsx:3-13 | the corrected resolver never yields an empty string |
| `AppCatalog.ResolvedServesServerImage` | App.jsx:3-13 | the corrected resolver shows every live product at exactly the path the server resolved |
| `AppCatalog.ResolvedAgreesOnBareNames` | App.jsx:11-12 | on bare file names the corrected resolver agrees with `imgSrcFor` |
| `AppCatalog.TeamFilter` | App.jsx:55-58 | with no filter the list is returned unchanged; otherwise the result is the order-preserving subsequence of items whose team (missing = `[]`) holds the tag, both directions, each kept item as often as it occurs |
| `AppCatalog.TeamFilterNeedsTeam` | App.jsx:57 | under a tag, every kept item has a team that lists it, and an item without a team is never kept |
| `AppCatalog.TeamFilterExample` | App.jsx:57 | items tagged `["U12","U14"]` and `["U14"]`, filtered by `U12`, leave only the first |
| `AppCatalog.CatalogLoader.constructor` | App.jsx:27-28 | the state starts with no items, loading, and nothing fetched |
| `AppCatalog.AcceptsPrimaryCases` | App.jsx:35-43 | the live answer is taken exactly when the fetch succeeds with an ok status and `products` is a non-empty array; a throw, a non-ok status, a missing or non-array `products` and `[]` all fall back |
| `AppCatalog.SnapshotItems` | App.jsx:48 | the items are the snapshot's own `products`, and they are `[]` exactly when it has no `products` or an empty list |
| `AppCatalog.CatalogLoader.Load` | App.jsx:32-53 | an ok, non-empty live list is taken after one request; otherwise exactly one fallback request follows, and its `products` (or `[]`) is taken, or the items are kept if it throws; loading ends either way |
| `AppCatalog.Mount` | App.jsx:25-53 | after mounting, loading is false after one or two requests; two requests happen exactly when the live answer is rejected; a throwing fallback leaves `[]` |

## Left out

- JSX rendering and the `LeadForm`, `Modal`, `CashModal`, `InvoiceModal` and `ThanksModal` components (App.jsx:60-270): presentation with no catalog logic.
- `useQuery` and its `popstate` listener (App.jsx:15-23): browser state. The team filter value is an argument of `TeamFilter`.
- `fetch`, `res.json()`, `res.text()`, the Notion REST API, the `Notion-Version` header and the request's JSON body. Each page request is recorded as the database, token and optional `start_cursor` it carries. Each answer is a `PageResponse`: it was rejected, it was not ok (with status and text), or it was ok with parsed fields. A failed `res.json()` counts as rejected.
- Reading `process.env`: the environment is the `Config` record.
- `netlify/functions/diag.js`: it only reports whether the two variables are present. Its database rule is `ProductsHandler.Database`.
- Async scheduling. Each fetch is one sequential step with an outcome. The unhandled rejection after a throwing fallback is the `rejected` result of `CatalogLoader.Load`.
- JSON values of unexpected types are not modelled: a number where a string is expected, a truthy non-array `team`, a truthy non-array `products` in the fallback snapshot, a null page or a missing id.
- Prices are Dafny `real` numbers, not IEEE doubles.
- Item keys that the client only displays (name, price, links) are not part of `AppCatalog.Item`.
- NotionQuery.QueryAll: requires the store to stop eventually (`Terminates`). Against a store that always reports more pages, the source loops forever, and the model does not describe that run.
- Strings are sequences of Unicode scalar values, not of UTF-16 code units, so a lone surrogate cannot occur. The URIError that `enc` would then throw inside `pages.map`, which the handler would turn into a 500, is not modelled.
- UriEncoding.DecodeEncodeAscii: the inverse is proved for ASCII text only. Non-ASCII characters are encoded to UTF-8 but never decoded.

## Findings

| source | as written | input that shows it | evidently intended | confidence | as-written member | corrected member |
|---|---|---|---|---|---|---|
| App.jsx:11 | every non-URL value gets `/images/` in front, including paths the server already resolved (netlify/functions/products.js:13-14) | a live product whose image is the placeholder `/images/placeholder.jpg` is shown from `/images//images/placeholder.jpg` | a value that already starts with `/` is used as it is | high, not executed | `AppCatalog.PlaceholderReprefixed` | `AppCatalog.ImgSrcForResolved` |
| App.jsx:10-12 | http(s) URLs are passed through `encodeURI`, although the comment at App.jsx:4 says they are accepted as they are | `https://x/a%2F` (an escape such as those in signed file URLs) becomes `https://x/a%252F` | URLs are used unchanged | medium, not executed | `AppCatalog.UrlEscapeExample` | `AppCatalog.ImgSrcForResolved` |

`ImgSrcForResolved` is proved to show every live product at exactly the server's path (`ResolvedServesServerImage`). It is also proved to agree with `imgSrcFor` on bare file names, which are neither URLs nor paths starting with `/` (`ResolvedAgreesOnBareNames`). The as-written `ImgSrcFor` stays in the model unchanged. No other member uses either resolver.
