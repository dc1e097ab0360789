/**
 * The /api/products handler (netlify/functions/products.js): configuration check, aggregation,
 * normalisation and status filtering, and the three response shapes. The process environment
 * is an explicit configuration record, and the store is the sequence of its responses.
 */
module ProductsHandler {
  import opened Wrappers
  import opened JsStrings
  import opened Products
  import opened NotionQuery

  /** The environment variables the handler reads. */
  datatype Config = Config(
    notionToken: Option<string>,       // NOTION_TOKEN
    notionProductsDb: Option<string>,  // NOTION_PRODUCTS_DB
    notionDb: Option<string>)          // NOTION_DB

  /** `NOTION_PRODUCTS_DB || NOTION_DB`: the products database wins whenever it is set and non-empty. */
  function Database(env: Config): (db: Option<string>)
    ensures Truthy(env.notionProductsDb) ==> db == env.notionProductsDb
    ensures !Truthy(env.notionProductsDb) ==> db == env.notionDb
  {
    if Truthy(env.notionProductsDb) then env.notionProductsDb else env.notionDb
  }

  /** The negation of `!token || !db`. */
  predicate Configured(env: Config) {
    Truthy(env.notionToken) && Truthy(Database(env))
  }

  /** The handler goes on exactly when the token is set and one of the two database variables is non-empty. */
  lemma ConfiguredIff(env: Config)
    ensures Configured(env) <==>
              Truthy(env.notionToken) && (Truthy(env.notionProductsDb) || Truthy(env.notionDb))
  {
  }

  /** The JSON body; a key that the response does not carry is None. */
  datatype Body = Body(products: Option<seq<Product>>, reason: Option<string>, error: Option<string>)

  datatype Response = Response(statusCode: int, headers: map<string, string>, body: Body)

  const JsonHeaders: map<string, string> := map["Content-Type" := "application/json", "Cache-Control" := "no-store"]

  const MissingEnvReason: string := "NOTION env missing"

  /** `e.message || "Unknown error"`. */
  function ErrorText(e: QueryError): (t: string)
    ensures t != ""
    ensures e.Upstream? ==> t == ErrorMessage(e)
    ensures e.Thrown? ==> t == if e.message != "" then e.message else "Unknown error"
  {
    OrElse(Some(ErrorMessage(e)), "Unknown error")
  }

  /** exports.handler. */
  method Handle(env: Config, pages: seq<PageResponse>) returns (response: Response, sent: seq<QueryRequest>)
    requires Configured(env) ==> Terminates(pages)
    ensures response.headers == JsonHeaders
    ensures !Configured(env) ==>
              response == Response(404, JsonHeaders, Body(Some([]), Some(MissingEnvReason), None)) && sent == []
    ensures Configured(env) ==> sent == Requests(Database(env).value, env.notionToken.value, pages)
    ensures Configured(env) ==> sent != [] && forall r :: r in sent ==>
              r.token == env.notionToken.value
              && r.db == (if Truthy(env.notionProductsDb) then env.notionProductsDb.value else env.notionDb.value)
    ensures Configured(env) && Aggregate(pages).Failure? ==>
              response == Response(500, JsonHeaders, Body(None, None, Some(ErrorText(Aggregate(pages).error))))
    ensures Configured(env) && Aggregate(pages).Success? ==>
              response == Response(200, JsonHeaders, Body(Some(CatalogProducts(Aggregate(pages).value)), None, None))
  {
    var token := env.notionToken;
    var db := Database(env);
    if !Truthy(token) || !Truthy(db) {
      response := Response(404, JsonHeaders, Body(Some([]), Some(MissingEnvReason), None));
      sent := [];
      return;
    }
    var outcome;
    outcome, sent := QueryAll(db.value, token.value, pages);
    RequestsShape(db.value, token.value, pages);
    match outcome
    case Failure(e) =>
      response := Response(500, JsonHeaders, Body(None, None, Some(ErrorText(e))));
    case Success(raw) =>
      var products := FilterPublishable(NormalizeAll(raw));
      response := Response(200, JsonHeaders, Body(Some(products), None, None));
  }

  /** A failed page surfaces as "Notion <status>: <text>", never as the generic text. */
  lemma UpstreamErrorText(status: nat, text: string)
    ensures ErrorText(Upstream(status, text)) == "Notion " + NatToDecimal(status) + ": " + text
    ensures ErrorText(Upstream(status, text)) != "Unknown error"
  {
    var t := ErrorText(Upstream(status, text));
    assert t[..7] == "Notion ";
    assert "Unknown error"[0] != t[0];
  }
}
