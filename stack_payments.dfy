/** The Stack Auth payments helpers: environment validation, the server header
    set, the inline product shape, and the classification of the checkout and
    entitlement responses (the HTTP exchange itself is an input). */
module StackPayments {
  import opened Wrappers
  import opened JsText
  import opened JsValues

  /** `process.env`: a key that is not in the map reads as `undefined`. */
  type Env = map<string, string>

  /** The status of a response a `fetch` call resolves to: a three-digit HTTP status of
      at least 200 (informational responses never settle a `fetch`). */
  type HttpStatus = s: int | 200 <= s <= 999 witness 200

  /** `Response.ok`. */
  predicate IsOk(status: int) {
    200 <= status <= 299
  }

  const ProjectIdKey := "NEXT_PUBLIC_STACK_PROJECT_ID"
  const PublishableKeyKey := "NEXT_PUBLIC_STACK_PUBLISHABLE_CLIENT_KEY"
  const SecretKeyKey := "STACK_SECRET_SERVER_KEY"

  /** The required environment variables, in their fixed order. */
  const RequiredEnvKeys: seq<string> := [ProjectIdKey, PublishableKeyKey, SecretKeyKey]

  /** `!process.env[key]?.trim()`: the variable is unset or trims to the empty string. */
  predicate IsMissing(env: Env, key: string) {
    key !in env || Trim(env[key]) == []
  }

  /** A variable counts as missing exactly when it is unset or all whitespace. */
  lemma MissingMeansBlank(env: Env, key: string)
    ensures IsMissing(env, key) <==> key !in env || IsBlank(env[key])
  {
    if key in env {
      TrimEmptyIffBlank(env[key]);
    }
  }

  /** `a` is `b` with some elements left out, order kept. */
  ghost predicate IsSubsequence(a: seq<string>, b: seq<string>) {
    if a == [] then true
    else if b == [] then false
    else (a[0] == b[0] && IsSubsequence(a[1..], b[1..])) || IsSubsequence(a, b[1..])
  }

  /** `keys.filter(key => IsMissing(env, key))`. */
  function MissingAmong(keys: seq<string>, env: Env): (missing: seq<string>)
    ensures IsSubsequence(missing, keys)
    ensures forall k :: k in missing <==> k in keys && IsMissing(env, k)
  {
    if keys == [] then []
    else if IsMissing(env, keys[0]) then [keys[0]] + MissingAmong(keys[1..], env)
    else MissingAmong(keys[1..], env)
  }

  /** `validatePaymentsEnv`: the required keys that are unset or blank, in the fixed order. */
  function ValidatePaymentsEnv(env: Env): (missing: seq<string>)
    ensures IsSubsequence(missing, RequiredEnvKeys)
    ensures forall k :: k in missing <==> k in RequiredEnvKeys && IsMissing(env, k)
  {
    MissingAmong(RequiredEnvKeys, env)
  }

  /** An empty result means every required variable is set to a non-blank value. */
  lemma ValidEnvHasAllKeys(env: Env)
    requires ValidatePaymentsEnv(env) == []
    ensures forall k :: k in RequiredEnvKeys ==> k in env && !IsBlank(env[k])
  {
    forall k | k in RequiredEnvKeys ensures k in env && !IsBlank(env[k]) {
      assert k !in ValidatePaymentsEnv(env);
      MissingMeansBlank(env, k);
    }
  }

  /** The message `getStackPaymentsHeaders` throws with. */
  function MissingEnvMessage(missing: seq<string>): string {
    "Missing Stack Auth env vars: " + Join(missing, ", ") + ". Cannot build payments headers."
  }

  /** The five header names. */
  const HeaderNames: set<string> := {"content-type", "x-stack-access-type", "x-stack-project-id",
                                     "x-stack-secret-server-key", "x-stack-publishable-client-key"}

  /** The header names are pairwise distinct, so the header object has five entries. */
  lemma HeaderNamesCount()
    ensures |HeaderNames| == 5
  {
    var a, b, c, d, e := "content-type", "x-stack-access-type", "x-stack-project-id",
                         "x-stack-secret-server-key", "x-stack-publishable-client-key";
    assert a[0] != b[0] && a[0] != c[0] && a[0] != d[0] && a[0] != e[0];
    assert b[9] != c[9] && b[9] != d[9] && b[9] != e[9];
    assert c[9] != d[9] && c[9] != e[9];
    assert d[9] != e[9];
    assert |{a, b}| == 2;
    assert |{a, b, c}| == 3;
    assert |{a, b, c, d}| == 4;
    assert HeaderNames == {a, b, c, d} + {e};
  }

  /** The server-auth header object built from the three credentials. */
  function ServerHeaders(projectId: string, secretKey: string, publishableKey: string): (h: map<string, string>)
    ensures h.Keys == HeaderNames
    ensures h["content-type"] == "application/json" && h["x-stack-access-type"] == "server"
    ensures h["x-stack-project-id"] == projectId && h["x-stack-secret-server-key"] == secretKey
    ensures h["x-stack-publishable-client-key"] == publishableKey
  {
    map[
      "content-type" := "application/json",
      "x-stack-access-type" := "server",
      "x-stack-project-id" := projectId,
      "x-stack-secret-server-key" := secretKey,
      "x-stack-publishable-client-key" := publishableKey]
  }

  /** With non-blank credentials the header object has five entries, none of them blank. */
  lemma ServerHeadersNotBlank(projectId: string, secretKey: string, publishableKey: string)
    requires !IsBlank(projectId) && !IsBlank(secretKey) && !IsBlank(publishableKey)
    ensures var h := ServerHeaders(projectId, secretKey, publishableKey);
            |h| == 5 && forall name :: name in h ==> !IsBlank(h[name])
  {
    HeaderNamesCount();
    var h := ServerHeaders(projectId, secretKey, publishableKey);
    assert |h| == |h.Keys|;
    assert !IsJsWhitespace("application/json"[0]) && !IsJsWhitespace("server"[0]);
  }

  /** `getStackPaymentsHeaders`: throws when a variable is missing, otherwise the five
      server-auth headers, none of them blank. */
  function GetStackPaymentsHeaders(env: Env): (r: Completion<map<string, string>>)
    ensures r.Threw? <==> ValidatePaymentsEnv(env) != []
    ensures r.Threw? ==> r.message == MissingEnvMessage(ValidatePaymentsEnv(env))
    ensures r.Returned? ==>
      && |r.value| == 5
      && r.value.Keys == HeaderNames
      && r.value["content-type"] == "application/json"
      && r.value["x-stack-access-type"] == "server"
      && ProjectIdKey in env && r.value["x-stack-project-id"] == env[ProjectIdKey]
      && SecretKeyKey in env && r.value["x-stack-secret-server-key"] == env[SecretKeyKey]
      && PublishableKeyKey in env && r.value["x-stack-publishable-client-key"] == env[PublishableKeyKey]
      && forall h :: h in r.value ==> !IsBlank(r.value[h])
  {
    var missing := ValidatePaymentsEnv(env);
    if missing != [] then Threw(MissingEnvMessage(missing))
    else
      ValidEnvHasAllKeys(env);
      var h := ServerHeaders(env[ProjectIdKey], env[SecretKeyKey], env[PublishableKeyKey]);
      ServerHeadersNotBlank(env[ProjectIdKey], env[SecretKeyKey], env[PublishableKeyKey]);
      Returned(h)
  }

  /** The billing interval of a recurring price. */
  datatype Interval = Month | Year

  function IntervalName(i: Interval): string {
    match i
    case Month => "month"
    case Year => "year"
  }

  /** One price: the USD amount and, for a recurring price, `[count, unit]`. */
  datatype PriceEntry = PriceEntry(usd: string, interval: Option<(nat, Interval)>)

  /** The `product` object of the inline product. */
  datatype Product = Product(
    displayName: string,
    customerType: string,
    serverOnly: bool,
    stackable: bool,
    prices: map<string, PriceEntry>,
    includedItems: map<string, nat>)  // item key to quantity

  datatype InlineProduct = InlineProduct(product: Product, itemKey: string)

  /** The entitlement item a plan grants. */
  function ItemKey(planId: string): string {
    planId + "_access"
  }

  /** The key of the single price: the interval, or `"one_time"` for `null`. */
  function PriceKey(interval: Option<Interval>): string {
    match interval
    case Some(i) => IntervalName(i)
    case None => "one_time"
  }

  /** `buildInlineProduct`; `None` is the `null` interval, and the interval defaults to a month. */
  function BuildInlineProduct(displayName: string, priceUsd: string, planId: string,
                              interval: Option<Interval> := Some(Month)): (r: InlineProduct)
    ensures r.itemKey == planId + "_access"
    ensures r.product.includedItems.Keys == {r.itemKey} && r.product.includedItems[r.itemKey] == 1
    ensures r.product.prices.Keys == {PriceKey(interval)}
    ensures r.product.prices[PriceKey(interval)].usd == priceUsd
    ensures r.product.prices[PriceKey(interval)].interval.Some? <==> interval.Some?
    ensures interval.Some? ==> r.product.prices[PriceKey(interval)].interval == Some((1, interval.value))
    ensures r.product.displayName == displayName && r.product.customerType == "user"
    ensures !r.product.serverOnly && !r.product.stackable
  {
    var itemKey := ItemKey(planId);
    var priceEntry := PriceEntry(priceUsd, if interval.Some? then Some((1, interval.value)) else None);
    InlineProduct(
      Product(displayName, "user", false, false,
              map[PriceKey(interval) := priceEntry],
              map[itemKey := 1]),
      itemKey)
  }

  /** Distinct plans grant distinct items. */
  lemma ItemKeyInjective(p: string, q: string)
    requires ItemKey(p) == ItemKey(q)
    ensures p == q
  {
    assert |p| == |q|;
    assert p == ItemKey(p)[..|p|];
    assert q == ItemKey(q)[..|q|];
  }

  /** The price key determines the interval, so nothing is lost by keying prices with it. */
  lemma PriceKeyInjective(i: Option<Interval>, j: Option<Interval>)
    requires PriceKey(i) == PriceKey(j)
    ensures i == j
  {
  }

  /** What a `fetch` call with `res.text()` gave: the status, the text, and what
      `JSON.parse` makes of the text. */
  datatype TextResponse = TextResponse(status: HttpStatus, text: string, json: ParseOutcome)

  /** What a `fetch` call with `res.json()` gave (`ParseFailed`: `res.json()` rejected). */
  datatype JsonResponse = JsonResponse(status: HttpStatus, json: ParseOutcome)

  /** The resolved value of `createCheckoutUrl`. */
  datatype CheckoutResult = CheckoutUrl(url: JsValue) | CheckoutError(error: string, details: string)

  /** The response part of `createCheckoutUrl`, after headers were built and `fetch`
      and `res.text()` resolved. */
  function ClassifyCheckoutResponse(res: TextResponse): (r: CheckoutResult)
    ensures !IsOk(res.status) ==>
      r == CheckoutError("Stack Auth checkout failed (" + NatToString(res.status) + ")", res.text)
    ensures r.CheckoutUrl? <==>
      IsOk(res.status) && res.json.Parsed? && res.json.doc.JObject?
      && "url" in res.json.doc.fields && Truthy(res.json.doc.fields["url"])
    ensures r.CheckoutUrl? ==> Truthy(r.url) && r.url == res.json.doc.fields["url"]
    ensures IsOk(res.status) && (res.json.ParseFailed? || res.json.doc.JNull?) ==>
      r == CheckoutError("Invalid JSON response", res.text)
    ensures r.CheckoutError? && IsOk(res.status) && res.json.Parsed? && !res.json.doc.JNull? ==>
      r == CheckoutError("No checkout URL in response", res.text)
  {
    if !IsOk(res.status) then
      CheckoutError("Stack Auth checkout failed (" + NatToString(res.status) + ")", res.text)
    else if res.json.ParseFailed? then
      CheckoutError("Invalid JSON response", res.text)
    else
      match Property(res.json.doc, "url")
      case Threw(_) => CheckoutError("Invalid JSON response", res.text)
      case Returned(url) =>
        if Truthy(url) then CheckoutUrl(url)
        else CheckoutError("No checkout URL in response", res.text)
  }

  /** The status text of a failed checkout gives back the status. */
  lemma CheckoutFailureNamesStatus(res: TextResponse)
    requires !IsOk(res.status)
    ensures var e := ClassifyCheckoutResponse(res).error;
            var prefix := "Stack Auth checkout failed (";
            var digits := e[|prefix|..|e| - 1];
            && e[..|prefix|] == prefix
            && (forall i :: 0 <= i < |digits| ==> '0' <= digits[i] <= '9')
            && DecimalValue(digits) == res.status
  {
    var prefix := "Stack Auth checkout failed (";
    var e := ClassifyCheckoutResponse(res).error;
    assert e == prefix + NatToString(res.status) + ")";
    assert e[|prefix|..|e| - 1] == NatToString(res.status);
    NatToStringRoundTrip(res.status);
  }

  /** `createCheckoutUrl`: building the headers or the HTTP exchange may throw
      (the promise rejects); otherwise the classified response. */
  function CreateCheckoutUrl(env: Env, fetched: Completion<TextResponse>): (r: Completion<CheckoutResult>)
    ensures ValidatePaymentsEnv(env) != [] ==> r == Threw(MissingEnvMessage(ValidatePaymentsEnv(env)))
    ensures ValidatePaymentsEnv(env) == [] && fetched.Threw? ==> r == Threw(fetched.message)
    ensures ValidatePaymentsEnv(env) == [] && fetched.Returned? ==>
      r == Returned(ClassifyCheckoutResponse(fetched.value))
  {
    match GetStackPaymentsHeaders(env)
    case Threw(m) => Threw(m)
    case Returned(_) =>
      match fetched
      case Threw(m) => Threw(m)
      case Returned(res) => Returned(ClassifyCheckoutResponse(res))
  }

  /** The response part of `checkItemEntitlement`: access exactly when the response is
      ok and its body's `quantity` is a number greater than zero. */
  function ClassifyEntitlementResponse(res: JsonResponse): (hasAccess: bool)
    ensures hasAccess <==>
      && IsOk(res.status) && res.json.Parsed? && res.json.doc.JObject?
      && "quantity" in res.json.doc.fields
      && res.json.doc.fields["quantity"].Num?
      && IsPositive(res.json.doc.fields["quantity"].n)
    ensures res.json.ParseFailed? ==> !hasAccess
  {
    if !IsOk(res.status) then false
    else if res.json.ParseFailed? then false
    else
      match Property(res.json.doc, "quantity")
      case Threw(_) => false
      case Returned(q) => q.Num? && IsPositive(q.n)
  }

  /** `checkItemEntitlement`: rejects when the headers cannot be built or the request
      fails; otherwise resolves to the classified response. */
  function CheckItemEntitlement(env: Env, fetched: Completion<JsonResponse>): (r: Completion<bool>)
    ensures r.Threw? <==> ValidatePaymentsEnv(env) != [] || fetched.Threw?
    ensures r == Returned(true) <==>
      ValidatePaymentsEnv(env) == [] && fetched.Returned? && ClassifyEntitlementResponse(fetched.value)
  {
    match GetStackPaymentsHeaders(env)
    case Threw(m) => Threw(m)
    case Returned(_) =>
      match fetched
      case Threw(m) => Threw(m)
      case Returned(res) => Returned(ClassifyEntitlementResponse(res))
  }

  /** What `new URL(baseUrl)` did: threw, or parsed; `ParsedUrl` carries the
      serialisation after the two search parameters were set. */
  datatype UrlParse = Unparsable | ParsedUrl(withCheckoutParams: string)

  /** `buildReturnUrl`; only the fallback is modelled: an unparsable base comes back unchanged. */
  function BuildReturnUrl(baseUrl: string, planId: string, parse: UrlParse): (r: string)
    ensures parse.Unparsable? ==> r == baseUrl
    ensures parse.ParsedUrl? ==> r == parse.withCheckoutParams
  {
    match parse
    case Unparsable => baseUrl
    case ParsedUrl(s) => s
  }
}
