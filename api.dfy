/**
 * The product API client (src/services/api.ts): how a `fetch` result is turned
 * into either the parsed body or a thrown `Error`. The network is not modelled;
 * the settled `fetch` is an input.
 */
module Api {
  import opened Wrappers
  import opened Types
  import Js

  /** Requests go through the development proxy. */
  const API_BASE_URL: string := "/api"

  /** The message of the value the `.catch` substitutes for a body that is not JSON. */
  const NOT_JSON_MESSAGE: string := "Network response was not ok"
  const PRODUCTS_FALLBACK: string := "Failed to fetch products"
  const NOT_FOUND: string := "Product not found"

  /** `${API_BASE_URL}/products` */
  function ProductsPath(): (path: string)
    ensures path == "/api/products"
  {
    API_BASE_URL + "/products"
  }

  /** `${API_BASE_URL}/products/${id}` */
  function ProductPath(id: string): (path: string)
    ensures path == "/api/products/" + id
  {
    API_BASE_URL + "/products/" + id
  }

  /** The fallback message when a failed response for one product carries no message. */
  function ProductFallback(id: string): (msg: string)
    ensures |msg| == |"Failed to fetch product with id "| + |id|
    ensures msg[..|msg| - |id|] == "Failed to fetch product with id "
    ensures msg[|msg| - |id|..] == id
  {
    "Failed to fetch product with id " + id
  }

  /** Two fallback messages are equal only for the same id. */
  lemma ProductFallbackInjective(a: string, b: string)
    requires ProductFallback(a) == ProductFallback(b)
    ensures a == b
  {
    assert |a| == |b|;
  }

  /**
   * What `response.json()` settles to: a parsed JSON value, seen both as the
   * `T` the caller casts it to and through its `message` property, or a
   * `SyntaxError` (with the engine's message) when the body is not JSON.
   */
  datatype Body<T> = Json(value: T, message: Option<string>) | NotJson(syntaxError: string)

  /** A delivered HTTP response; `ok` holds for the 2xx statuses. */
  datatype Response<T> = Response(status: int, body: Body<T>) {
    predicate Ok()
    {
      200 <= status <= 299
    }
  }

  /** What the awaited `fetch` settles to: a response, or a network `TypeError`. */
  datatype Transport<T> = Delivered(response: Response<T>) | NetworkError(message: string)

  /** How an API call settles: with a value, or rejected with an `Error` carrying a message. */
  datatype Outcome<T> = Resolved(value: T) | Rejected(message: string)

  /**
   * `errorData.message || fallback`, where `errorData` is the parsed body, or
   * `{ message: NOT_JSON_MESSAGE }` when parsing failed.
   */
  function ErrorMessage<T>(body: Body<T>, fallback: string): (msg: string)
    ensures body.NotJson? ==> msg == NOT_JSON_MESSAGE
    ensures body.Json? && Js.TruthyOption(body.message) ==> msg == body.message.value
    ensures body.Json? && !Js.TruthyOption(body.message) ==> msg == fallback
  {
    match body
    case NotJson(_) => NOT_JSON_MESSAGE
    case Json(_, m) => if Js.TruthyOption(m) then m.value else fallback
  }

  /** `return response.json()`: the parsed body, or the parse error passed through. */
  function ParsedBody<T>(body: Body<T>): (r: Outcome<T>)
    ensures r.Resolved? <==> body.Json?
    ensures body.Json? ==> r.value == body.value
    ensures body.NotJson? ==> r.message == body.syntaxError
  {
    match body
    case Json(v, _) => Resolved(v)
    case NotJson(e) => Rejected(e)
  }

  /** `fetchProducts` once the request to `ProductsPath()` has settled. */
  function FetchProducts(t: Transport<seq<Product>>): (r: Outcome<seq<Product>>)
    ensures t.NetworkError? ==> r == Rejected(t.message)
    ensures t.Delivered? && t.response.Ok() ==> r == ParsedBody(t.response.body)
    ensures t.Delivered? && !t.response.Ok() ==> r == Rejected(ErrorMessage(t.response.body, PRODUCTS_FALLBACK))
  {
    match t
    case NetworkError(m) => Rejected(m)
    case Delivered(response) =>
      if !response.Ok() then Rejected(ErrorMessage(response.body, PRODUCTS_FALLBACK))
      else ParsedBody(response.body)
  }

  /** `fetchProductById(id)` once the request to `ProductPath(id)` has settled. */
  function FetchProductById(id: string, t: Transport<Product>): (r: Outcome<Product>)
    ensures t.NetworkError? ==> r == Rejected(t.message)
    ensures t.Delivered? && t.response.status == 404 ==> r == Rejected(NOT_FOUND)
    ensures t.Delivered? && t.response.Ok() ==> r == ParsedBody(t.response.body)
    ensures t.Delivered? && !t.response.Ok() && t.response.status != 404 ==>
      r == Rejected(ErrorMessage(t.response.body, ProductFallback(id)))
  {
    match t
    case NetworkError(m) => Rejected(m)
    case Delivered(response) =>
      if !response.Ok() then
        if response.status == 404 then Rejected(NOT_FOUND)
        else Rejected(ErrorMessage(response.body, ProductFallback(id)))
      else ParsedBody(response.body)
  }

  // ---------------------------------------------------------------------
  // Lemmas

  /** Each product has its own path, and the id can be read back from it. */
  lemma ProductPathInjective(a: string, b: string)
    requires ProductPath(a) == ProductPath(b)
    ensures a == b
  {
    var prefix := "/api/products/";
    assert ProductPath(a)[|prefix|..] == a;
    assert ProductPath(b)[|prefix|..] == b;
  }

  /** A call resolves exactly when a 2xx response with a JSON body was delivered. */
  lemma ResolvesIffOkJson(id: string, t: Transport<Product>)
    ensures FetchProductById(id, t).Resolved? <==> t.Delivered? && t.response.Ok() && t.response.body.Json?
    ensures FetchProductById(id, t).Resolved? ==> FetchProductById(id, t).value == t.response.body.value
  {
  }

  /** The same for the product list. */
  lemma ListResolvesIffOkJson(t: Transport<seq<Product>>)
    ensures FetchProducts(t).Resolved? <==> t.Delivered? && t.response.Ok() && t.response.body.Json?
  {
  }

  /**
   * Apart from the 404 case and the wording of the fallback, both calls read
   * a failed response the same way.
   */
  lemma SameRuleForBothCalls(id: string, status: int, body: Body<Product>, listBody: Body<seq<Product>>)
    requires !(200 <= status <= 299) && status != 404
    requires body.Json? == listBody.Json?
    requires body.Json? ==> body.message == listBody.message
    ensures FetchProductById(id, Delivered(Response(status, body))).Rejected?
    ensures FetchProducts(Delivered(Response(status, listBody))).Rejected?
    ensures body.NotJson? || Js.TruthyOption(body.message) ==>
      FetchProductById(id, Delivered(Response(status, body))).message ==
      FetchProducts(Delivered(Response(status, listBody))).message
  {
  }

  /** A rejection never carries an empty message when the transport's messages are not empty. */
  lemma RejectionMessageTruthy(id: string, t: Transport<Product>)
    requires t.NetworkError? ==> Js.Truthy(t.message)
    requires t.Delivered? && t.response.body.NotJson? ==> Js.Truthy(t.response.body.syntaxError)
    ensures FetchProductById(id, t).Rejected? ==> Js.Truthy(FetchProductById(id, t).message)
  {
  }
}
