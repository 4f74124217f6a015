/** `POST /api/payments/checkout`: a ladder of checks, the first failing one
    deciding the response; every awaited call is an input. */
module CheckoutRoute {
  import opened Wrappers
  import opened JsValues
  import opened StackPayments
  import opened HttpResponses
  import opened RouteGuards

  /** The body after `request.json().catch(() => null)`. */
  function BodyDoc(body: ParseOutcome): JsonDoc {
    if body.Parsed? then body.doc else JNull
  }

  /** `body?.productInline` is truthy. */
  predicate HasProductInline(body: ParseOutcome) {
    Truthy(OptionalProperty(BodyDoc(body), "productInline"))
  }

  /** The arguments `buildReturnUrl` is called with, or `None` when it is not called:
      only a truthy `returnUrl` builds one, and the plan defaults to `"default"`. */
  function ReturnUrlArguments(body: ParseOutcome): (r: Option<(JsValue, JsValue)>)
    ensures r.Some? <==> Truthy(OptionalProperty(BodyDoc(body), "returnUrl"))
    ensures r.Some? ==> r.value.0 == OptionalProperty(BodyDoc(body), "returnUrl")
    ensures r.Some? && IsNullish(OptionalProperty(BodyDoc(body), "planId")) ==> r.value.1 == Str("default")
    ensures r.Some? && !IsNullish(OptionalProperty(BodyDoc(body), "planId")) ==>
      r.value.1 == OptionalProperty(BodyDoc(body), "planId")
  {
    var doc := BodyDoc(body);
    var returnUrl := OptionalProperty(doc, "returnUrl");
    if Truthy(returnUrl) then Some((returnUrl, Coalesce(OptionalProperty(doc, "planId"), Str("default"))))
    else None
  }

  /** The upstream response gave a non-empty string `url` in a JSON object. */
  predicate UpstreamHasUrl(res: TextResponse) {
    && IsOk(res.status) && res.json.Parsed? && res.json.doc.JObject?
    && "url" in res.json.doc.fields
    && res.json.doc.fields["url"].Str? && res.json.doc.fields["url"].s != []
  }

  /** The response for what the create-purchase-url call returned. A failing upstream
      status is passed on, except one a JSON response cannot have (above 599, or a null
      body status such as 304): building the response throws, and the outer `catch`
      answers. */
  function UpstreamToResponse(res: TextResponse): (r: Response)
    ensures !IsOk(res.status) && IsConstructibleStatus(res.status) && !IsNullBodyStatus(res.status) ==>
      r == Response(res.status, ErrorDetailsBody("Failed to create checkout URL", res.text), false)
    ensures !IsOk(res.status) && !IsConstructibleStatus(res.status) ==>
      r == UnexpectedError(StatusRangeMessage, false)
    ensures !IsOk(res.status) && IsNullBodyStatus(res.status) ==>
      r == UnexpectedError(InvalidStatusMessage(res.status), false)
    ensures IsOk(res.status) && res.json.ParseFailed? ==>
      r == Response(502, ErrorDetailsBody("Invalid response from Stack Auth", res.text), false)
    ensures IsOk(res.status) && res.json.Parsed? && res.json.doc.JNull? ==>
      r == UnexpectedError(NullPropertyMessage("url"), false)
    ensures IsOk(res.status) && res.json.Parsed? && !res.json.doc.JNull? && !UpstreamHasUrl(res) ==>
      r == Response(502, ErrorDetailsBody("No checkout URL in response", res.text), false)
    ensures r.status == 200 <==> UpstreamHasUrl(res)
    ensures UpstreamHasUrl(res) ==> r == Response(200, UrlBody(res.json.doc.fields["url"].s), false)
  {
    if !IsOk(res.status) then
      if !IsConstructibleStatus(res.status) then UnexpectedError(StatusRangeMessage, false)
      else if IsNullBodyStatus(res.status) then UnexpectedError(InvalidStatusMessage(res.status), false)
      else Response(res.status, ErrorDetailsBody("Failed to create checkout URL", res.text), false)
    else if res.json.ParseFailed? then
      Response(502, ErrorDetailsBody("Invalid response from Stack Auth", res.text), false)
    else
      match Property(res.json.doc, "url")
      case Threw(m) => UnexpectedError(m, false)
      case Returned(v) =>
        var url := if v.Str? then Some(v.s) else None;
        if url.None? || url.value == [] then
          Response(502, ErrorDetailsBody("No checkout URL in response", res.text), false)
        else
          Response(200, UrlBody(url.value), false)
  }

  /** `POST`: env check, then auth, then body, then the upstream call; an exception
      anywhere (the user lookup, the request) is answered by the outer `catch`. */
  function Post(env: Env, user: Completion<Option<string>>, body: ParseOutcome,
                upstream: Completion<TextResponse>): (r: Response)
    // 1) missing env vars win over everything else
    ensures !EnvReady(env) ==>
      r == Response(500, MissingEnvBody("Missing Stack Auth env vars", ValidatePaymentsEnv(env)), false)
    // the user lookup threw
    ensures EnvReady(env) && user.Threw? ==> r == UnexpectedError(user.message, false)
    // 2) no user id: unauthorised, whatever the body and the upstream
    ensures EnvReady(env) && user.Returned? && !HasUserId(user.value) ==>
      r == Response(401, ErrorBody("Unauthorized"), false)
    // 3) a missing, unparsable or product-less body
    ensures EnvReady(env) && user.Returned? && HasUserId(user.value) && !HasProductInline(body) ==>
      r == Response(400, ErrorBody("productInline is required in request body"), false)
    // 5) the upstream call
    ensures EnvReady(env) && user.Returned? && HasUserId(user.value) && HasProductInline(body) ==>
      r == (if upstream.Threw? then UnexpectedError(upstream.message, false)
            else UpstreamToResponse(upstream.value))
    // the only success is a non-empty string url taken from the upstream body
    ensures r.status == 200 <==>
      EnvReady(env) && user.Returned? && HasUserId(user.value) && HasProductInline(body)
      && upstream.Returned? && UpstreamHasUrl(upstream.value)
    ensures r.status == 200 ==> r.body.UrlBody? && r.body.url != []
                                && Str(r.body.url) == upstream.value.json.doc.fields["url"]
    // no response carries Cache-Control: no-store
    ensures !r.noStore
  {
    var missing := ValidatePaymentsEnv(env);
    if missing != [] then
      Response(500, MissingEnvBody("Missing Stack Auth env vars", missing), false)
    else
      match user
      case Threw(m) => UnexpectedError(m, false)
      case Returned(u) =>
        if !HasUserId(u) then Response(401, ErrorBody("Unauthorized"), false)
        else if !HasProductInline(body) then
          Response(400, ErrorBody("productInline is required in request body"), false)
        else
          match GetStackPaymentsHeaders(env)
          case Threw(m) => UnexpectedError(m, false)
          case Returned(_) =>
            match upstream
            case Threw(m) => UnexpectedError(m, false)
            case Returned(res) => UpstreamToResponse(res)
  }

  /** Every status the route answers with is one of its own codes or the upstream's failing
      one, and never a null body status. */
  lemma PostStatuses(env: Env, user: Completion<Option<string>>, body: ParseOutcome,
                     upstream: Completion<TextResponse>)
    ensures var r := Post(env, user, body, upstream);
            && (r.status in {200, 400, 401, 500, 502}
                || (upstream.Returned? && r.status == upstream.value.status && !IsOk(r.status)))
            && IsConstructibleStatus(r.status) && !IsNullBodyStatus(r.status)
  {
    var r := Post(env, user, body, upstream);
    if !EnvReady(env) || user.Threw? {
      assert r.status == 500;
    } else if !HasUserId(user.value) {
      assert r.status == 401;
    } else if !HasProductInline(body) {
      assert r.status == 400;
    } else if upstream.Threw? {
      assert r.status == 500;
    } else {
      UpstreamStatuses(upstream.value);
    }
  }

  /** The upstream step answers 200, 500 or 502, or passes on a failing status that a
      JSON response can have. */
  lemma UpstreamStatuses(res: TextResponse)
    ensures var r := UpstreamToResponse(res);
            || r.status == 200 || r.status == 500 || r.status == 502
            || (r.status == res.status && !IsOk(res.status)
                && IsConstructibleStatus(res.status) && !IsNullBodyStatus(res.status))
  {
  }

  /** An upstream 304 is not passed on: the route answers 500 "Unexpected error". */
  lemma UpstreamNotModifiedIsUnexpected(text: string, json: ParseOutcome)
    ensures var r := UpstreamToResponse(TextResponse(304, text, json));
            r.status == 500 && r.body == ErrorDetailsBody("Unexpected error", InvalidStatusMessage(304))
  {
  }

  /** An upstream status above 599 is not passed on either: the route answers 500
      "Unexpected error" with the `RangeError`'s message. */
  lemma UpstreamOutOfRangeIsUnexpected(status: HttpStatus, text: string, json: ParseOutcome)
    requires status > 599
    ensures var r := UpstreamToResponse(TextResponse(status, text, json));
            r.status == 500 && r.body == ErrorDetailsBody("Unexpected error", StatusRangeMessage)
  {
  }

  /** The env check comes first: with a variable missing, nothing else matters. */
  lemma EnvCheckedFirst(env: Env, user: Completion<Option<string>>, body: ParseOutcome,
                        upstream: Completion<TextResponse>, user': Completion<Option<string>>,
                        body': ParseOutcome, upstream': Completion<TextResponse>)
    requires !EnvReady(env)
    ensures Post(env, user, body, upstream) == Post(env, user', body', upstream')
  {
  }

  /** Authentication comes before the body: without a user id, the body and the upstream do not matter. */
  lemma AuthCheckedBeforeBody(env: Env, user: Option<string>, body: ParseOutcome,
                              upstream: Completion<TextResponse>, body': ParseOutcome,
                              upstream': Completion<TextResponse>)
    requires EnvReady(env) && !HasUserId(user)
    ensures Post(env, Returned(user), body, upstream) == Post(env, Returned(user), body', upstream')
  {
  }
}
