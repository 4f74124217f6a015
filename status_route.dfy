/** `GET /api/payments/status?item=<item_id>`: the entitlement check behind a
    ladder of env, auth and query-parameter checks. */
module StatusRoute {
  import opened Wrappers
  import opened StackPayments
  import opened HttpResponses
  import opened RouteGuards

  /** `searchParams.get("item")` is truthy. */
  predicate HasItem(item: Option<string>) {
    item.Some? && item.value != []
  }

  /** `GET`; `entitlement` is what the entitlement request inside `checkItemEntitlement` gave. */
  function Get(env: Env, user: Completion<Option<string>>, item: Option<string>,
               entitlement: Completion<JsonResponse>): (r: Response)
    // every response is marked Cache-Control: no-store
    ensures r.noStore
    ensures !EnvReady(env) ==>
      r == Response(500, MissingEnvBody("Missing Stack Auth env vars", ValidatePaymentsEnv(env)), true)
    ensures EnvReady(env) && user.Threw? ==> r == UnexpectedError(user.message, true)
    ensures EnvReady(env) && user.Returned? && !HasUserId(user.value) ==>
      r == Response(401, ErrorBody("Unauthorized"), true)
    ensures EnvReady(env) && user.Returned? && HasUserId(user.value)
            && !HasItem(item) ==>
      r == Response(400, ErrorBody("Missing required query param: item"), true)
    ensures EnvReady(env) && user.Returned? && HasUserId(user.value)
            && HasItem(item) && entitlement.Threw? ==>
      r == UnexpectedError(entitlement.message, true)
    ensures r.status == 200 <==>
      EnvReady(env) && user.Returned? && HasUserId(user.value)
      && HasItem(item) && entitlement.Returned?
    ensures r.status == 200 ==>
      r.body == AccessBody(ClassifyEntitlementResponse(entitlement.value))
    ensures r.status in {200, 400, 401, 500}
  {
    var missing := ValidatePaymentsEnv(env);
    if missing != [] then
      Response(500, MissingEnvBody("Missing Stack Auth env vars", missing), true)
    else
      match user
      case Threw(m) => UnexpectedError(m, true)
      case Returned(u) =>
        if !HasUserId(u) then Response(401, ErrorBody("Unauthorized"), true)
        else if !HasItem(item) then Response(400, ErrorBody("Missing required query param: item"), true)
        else
          match CheckItemEntitlement(env, entitlement)
          case Threw(m) => UnexpectedError(m, true)
          case Returned(hasAccess) => Response(200, AccessBody(hasAccess), true)
  }

  /** `hasAccess` is true exactly when the entitlement response is ok with a positive quantity. */
  lemma AccessMeansPositiveQuantity(env: Env, user: Completion<Option<string>>, item: Option<string>,
                                    entitlement: Completion<JsonResponse>)
    requires Get(env, user, item, entitlement).status == 200
    ensures var res := entitlement.value;
            Get(env, user, item, entitlement).body.hasAccess <==>
              && IsOk(res.status) && res.json.Parsed? && res.json.doc.JObject?
              && "quantity" in res.json.doc.fields
              && res.json.doc.fields["quantity"].Num?
              && JsValues.IsPositive(res.json.doc.fields["quantity"].n)
  {
  }

  /** Authentication comes before the query parameter. */
  lemma AuthCheckedBeforeItem(env: Env, user: Option<string>, item: Option<string>, item': Option<string>,
                              entitlement: Completion<JsonResponse>, entitlement': Completion<JsonResponse>)
    requires EnvReady(env) && !HasUserId(user)
    ensures Get(env, Returned(user), item, entitlement) == Get(env, Returned(user), item', entitlement')
  {
  }
}
