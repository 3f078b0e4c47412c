/** The paywall-creation endpoint (pages/api/post/paywall.tsx): builds the
    payment-link request, posts it to the LNbits paywall extension and, only
    when that succeeded, stores one record in the `gallery` collection. The
    handler checks neither the HTTP method nor an existing record. */
module PaywallApi {
  import opened Wrappers
  import opened Js
  import opened Documents
  import opened GalleryStore

  /** The parsed body; `None` for the whole body is a JSON `null` body, on
      which destructuring throws. A missing body parses to `""` or `{}`,
      which is `Some(PaywallBody(None, None))`. */
  datatype PaywallBody = PaywallBody(public_id: Option<string>, url: Option<string>)

  /** The environment variables the handler reads. */
  datatype PaywallEnv = PaywallEnv(lnbitsUrl: Option<string>, apiKey: Option<string>, amount: Option<string>)

  /** `process.env.PAYWALL_AMOUNT || 1000`: the variable's text, or the
      number 1000. */
  datatype Amount = AmountSetting(text: string) | AmountSats(sats: nat)

  const DefaultAmount: nat := 1000

  /** The `paywall_request` body sent to LNbits. */
  datatype PaywallRequest = PaywallRequest(url: Option<string>, memo: string, description: string, amount: Amount, remembers: bool)

  /** The outgoing `fetch`: endpoint, `X-Api-Key` header and body. */
  datatype LnbitsCall = LnbitsCall(endpoint: string, apiKey: string, request: PaywallRequest)

  /** What LNbits answered: the fetch rejected, or a response whose body
      may fail to parse. */
  datatype JsonBody = Malformed | PaywallJson(id: Option<string>)
  datatype Upstream = NetworkError | HttpResponse(ok: bool, json: JsonBody)

  /** What the client receives: nothing at all, the insert result with
      status 200, or a 500. */
  datatype PaywallResponse = NoResponse | Echo(result: InsertResult) | ServerError(error: string)

  const PaywallError := "Error creating paywall"

  function ConfiguredAmount(env: PaywallEnv): (a: Amount)
    ensures Truthy(env.amount) ==> a == AmountSetting(env.amount.value)
    ensures !Truthy(env.amount) ==> a == AmountSats(DefaultAmount)
  {
    if Truthy(env.amount) then AmountSetting(env.amount.value) else AmountSats(DefaultAmount)
  }

  /** The memo and description that tie a payment link to its image. */
  function GalleryMemo(publicId: Option<string>): string {
    "gallery_" + JsString(publicId)
  }

  /** `paywall_request`: memo and description both name the image, the
      paid-for URL is the request's, access is remembered. */
  function BuildRequest(body: PaywallBody, env: PaywallEnv): (r: PaywallRequest)
    ensures r.memo == r.description == GalleryMemo(body.public_id)
    ensures body.public_id.Some? ==> r.memo == "gallery_" + body.public_id.value
    ensures r.url == body.url && r.remembers
    ensures r.amount == ConfiguredAmount(env)
  {
    var memo := GalleryMemo(body.public_id);
    PaywallRequest(body.url, memo, memo, ConfiguredAmount(env), true)
  }

  /** The LNbits paywall-creation endpoint. */
  function PaywallsEndpoint(env: PaywallEnv): string {
    JsString(env.lnbitsUrl) + "/paywall/api/v1/paywalls"
  }

  /** The public URL of a created paywall. */
  function PaywallUrl(env: PaywallEnv, id: Option<string>): string {
    JsString(env.lnbitsUrl) + "/paywall/" + JsString(id)
  }

  /** A stored paywall URL is the base URL followed by `/paywall/` and the
      id LNbits returned, and that id can be read back from it. */
  lemma PaywallUrlNamesId(env: PaywallEnv, id: string)
    ensures StartsWith(PaywallUrl(env, Some(id)), JsString(env.lnbitsUrl) + "/paywall/")
    ensures PaywallUrl(env, Some(id))[|JsString(env.lnbitsUrl)| + 9..] == id
  {
    var prefix := JsString(env.lnbitsUrl) + "/paywall/";
    assert PaywallUrl(env, Some(id)) == prefix + id;
    assert |prefix| == |JsString(env.lnbitsUrl)| + 9;
  }

  /** Distinct LNbits ids give distinct stored URLs. */
  lemma PaywallUrlInjective(env: PaywallEnv, a: string, b: string)
    requires PaywallUrl(env, Some(a)) == PaywallUrl(env, Some(b))
    ensures a == b
  {
    PaywallUrlNamesId(env, a);
    PaywallUrlNamesId(env, b);
  }

  /** True when LNbits created the paywall and its answer parsed. */
  predicate Created(upstream: Upstream) {
    upstream.HttpResponse? && upstream.ok && upstream.json.PaywallJson?
  }

  /** The handler. `insertFault` is a failure of `Connect()` or of
      `insertOne`; `now` is the clock. */
  method CreatePaywall(gallery: Gallery, body: Option<PaywallBody>, env: PaywallEnv,
                       upstream: Upstream, insertFault: bool, now: Time)
    returns (call: Option<LnbitsCall>, res: PaywallResponse)
    requires gallery.Valid()
    modifies gallery
    ensures gallery.Valid()
    // a `null` body: the outer catch only logs; nothing is sent, stored or answered
    ensures body.None? ==> call.None? && res == NoResponse && unchanged(gallery)
    ensures body.Some? ==>
      call == Some(LnbitsCall(PaywallsEndpoint(env), OrElse(env.apiKey, ""), BuildRequest(body.value, env)))
    // an upstream failure answers 500 and stores nothing
    ensures body.Some? && !Created(upstream) ==> res == ServerError(PaywallError) && unchanged(gallery)
    ensures body.Some? && Created(upstream) && insertFault ==> res == ServerError(PaywallError) && unchanged(gallery)
    // success stores exactly one new record, even when the image has one already
    ensures body.Some? && Created(upstream) && !insertFault ==>
      && gallery.records == old(gallery.records) + [PaywallRecord(old(gallery.nextId), body.value.public_id, body.value.url,
                                                                  PaywallUrl(env, upstream.json.id), now)]
      && res == Echo(InsertResult(true, old(gallery.nextId)))
  {
    call := None;
    res := NoResponse;
    if body.None? {
      return;
    }
    var public_id, url := body.value.public_id, body.value.url;
    var lnbits_url := PaywallsEndpoint(env);
    var lnbits_api_key := OrElse(env.apiKey, "");
    var paywall_request := BuildRequest(body.value, env);
    call := Some(LnbitsCall(lnbits_url, lnbits_api_key, paywall_request));
    var paywall := "";
    if !Created(upstream) {
      res := ServerError(PaywallError);
      return;
    }
    paywall := PaywallUrl(env, upstream.json.id);
    var paywall_doc := gallery.InsertOne(public_id, url, paywall, now, insertFault);
    if paywall_doc.None? {
      res := ServerError(PaywallError);
    } else {
      res := Echo(paywall_doc.value);
    }
  }
}
