/**
  `POST /api/webhook/failed-payment`: a shared-secret check, then the fields of the
  body, then the company upsert and the payment insert. Every exception inside the
  handler, from an unparseable body to a clashing insert, becomes the same 500 reply.
 */
module FailedPaymentWebhook {
  import opened Wrappers
  import opened Json
  import opened Http
  import opened Store

  const SecretHeader: string := "x-swiftconnect-secret"
  const CompanyHeader: string := "x-whop-company-id"
  const SecretVariable: string := "SWIFTCONNECT_WEBHOOK_SECRET"

  /** Header names are lower-case; `body` is `None` when the text is not JSON. */
  datatype WebhookRequest = WebhookRequest(headers: map<string, string>, body: Option<JsValue>)

  function Header(req: WebhookRequest, name: string): Option<string>
  {
    if name in req.headers then Some(req.headers[name]) else None
  }

  /** `request.headers.get(name)`: the value, or `null`. */
  function HeaderValue(req: WebhookRequest, name: string): JsValue
  {
    if name in req.headers then Str(req.headers[name]) else Null
  }

  /** `!process.env.SWIFTCONNECT_WEBHOOK_SECRET` */
  predicate SecretUnset(env: map<string, string>)
  {
    SecretVariable !in env || env[SecretVariable] == ""
  }

  /** The payment fields as the body gives them, with the defaults applied. */
  datatype PaymentFields = PaymentFields(
    customerName: JsValue,
    customerEmail: JsValue,
    productName: JsValue,
    amount: JsValue,
    currency: JsValue,
    reason: JsValue)

  /** A request that passed every check: the company key and the fields to store. */
  datatype Admission = Admission(companyKey: string, fields: PaymentFields)

  function InternalError(): Response
  {
    JsonStatus(500, ErrorBody("Internal server error"))
  }

  /** `company_id || companyId || headerCompanyId` */
  function EffectiveCompanyId(req: WebhookRequest, body: JsValue): JsValue
  {
    OrElse(OrElse(Get(body, "company_id"), Get(body, "companyId")), HeaderValue(req, CompanyHeader))
  }

  /** The checks in the handler's order, up to the first write. */
  function Screen(req: WebhookRequest, env: map<string, string>): (r: Result<Admission, Response>)
    ensures SecretUnset(env) ==> r == Failure(JsonStatus(500, ErrorBody("Webhook secret not configured")))
    ensures !SecretUnset(env) && Header(req, SecretHeader) != Some(env[SecretVariable]) ==>
      r == Failure(JsonStatus(401, ErrorBody("Unauthorized")))
    ensures ((req.body.None? || req.body == Some(Null)) && !SecretUnset(env)
             && Header(req, SecretHeader) == Some(env[SecretVariable])) ==> r == Failure(InternalError())
    ensures (!SecretUnset(env) && Header(req, SecretHeader) == Some(env[SecretVariable])
             && req.body.Some? && req.body.value != Null && !Truthy(EffectiveCompanyId(req, req.body.value)))
      ==> r == Failure(JsonStatus(400, ErrorBody("Missing company_id (or x-whop-company-id header)")))
    ensures (!SecretUnset(env) && Header(req, SecretHeader) == Some(env[SecretVariable])
             && req.body.Some? && req.body.value != Null && Truthy(EffectiveCompanyId(req, req.body.value))
             && (!Truthy(Get(req.body.value, "customerName")) || !Truthy(Get(req.body.value, "customerEmail"))
                 || !Truthy(Get(req.body.value, "productName")) || Get(req.body.value, "amount") == Undefined))
      ==> r == Failure(JsonStatus(400, ErrorBody("Missing required fields")))
    ensures r.Success? <==> (
      && !SecretUnset(env) && Header(req, SecretHeader) == Some(env[SecretVariable])
      && req.body.Some? && req.body.value != Null
      && Truthy(EffectiveCompanyId(req, req.body.value))
      && Truthy(Get(req.body.value, "customerName")) && Truthy(Get(req.body.value, "customerEmail"))
      && Truthy(Get(req.body.value, "productName")) && Get(req.body.value, "amount") != Undefined)
    ensures r.Success? ==> (
      && var body := req.body.value;
      && var company := EffectiveCompanyId(req, body);
      && (company == Get(body, "company_id") || company == Get(body, "companyId") || company == HeaderValue(req, CompanyHeader))
      && r.value.companyKey == ToJsString(company)
      && r.value.fields.customerName == Get(body, "customerName")
      && r.value.fields.customerEmail == Get(body, "customerEmail")
      && r.value.fields.productName == Get(body, "productName")
      && r.value.fields.amount == Get(body, "amount")
      && r.value.fields.currency == (if Get(body, "currency") == Undefined then Str("USD") else Get(body, "currency"))
      && r.value.fields.reason == (if Truthy(Get(body, "reason")) then Get(body, "reason") else Null))
  {
    if SecretUnset(env) then Failure(JsonStatus(500, ErrorBody("Webhook secret not configured")))
    else if Header(req, SecretHeader) != Some(env[SecretVariable]) then Failure(JsonStatus(401, ErrorBody("Unauthorized")))
    else if req.body.None? || req.body.value == Null then Failure(InternalError())
    else
      var body := req.body.value;
      var company := EffectiveCompanyId(req, body);
      if !Truthy(company) then
        Failure(JsonStatus(400, ErrorBody("Missing company_id (or x-whop-company-id header)")))
      else if !Truthy(Get(body, "customerName")) || !Truthy(Get(body, "customerEmail"))
           || !Truthy(Get(body, "productName")) || Get(body, "amount") == Undefined then
        Failure(JsonStatus(400, ErrorBody("Missing required fields")))
      else
        var currency := if Get(body, "currency") == Undefined then Str("USD") else Get(body, "currency");
        Success(Admission(ToJsString(company),
          PaymentFields(Get(body, "customerName"), Get(body, "customerEmail"), Get(body, "productName"),
                        Get(body, "amount"), currency, OrElse(Get(body, "reason"), Null))))
  }

  /** `prisma.company.upsert` with an empty update: an existing company is kept as it
      is; otherwise one is created with no name. */
  function UpsertCompany(companies: map<string, CompanyRow>, companyKey: string, freshId: string)
    : (r: (map<string, CompanyRow>, CompanyRow))
    ensures r.0.Keys == companies.Keys + {companyKey} && r.0[companyKey] == r.1
    ensures companyKey in companies ==> r.0 == companies && r.1 == companies[companyKey]
    ensures companyKey !in companies ==> r.1 == CompanyRow(freshId, None)
    ensures forall k :: k in companies ==> r.0[k] == companies[k]
  {
    if companyKey in companies then (companies, companies[companyKey])
    else (companies[companyKey := CompanyRow(freshId, None)], CompanyRow(freshId, None))
  }

  /** What one call answers, and the two tables after it. */
  datatype WebhookOutcome = WebhookOutcome(
    response: Response,
    companies: map<string, CompanyRow>,
    payments: map<string, PaymentRow>)

  function NewPayment(companyId: string, fields: PaymentFields): PaymentRow
  {
    PaymentRow(companyId, fields.customerName, fields.customerEmail, fields.productName,
               fields.amount, fields.currency, fields.reason, Str("FAILED"))
  }

  function Created(paymentId: string): Response
  {
    JsonStatus(201, Obj(map["success" := Bool(true), "id" := Str(paymentId)]))
  }

  /** The handler as one step over the tables, with the ids the database would generate. */
  function WebhookSpec(companies: map<string, CompanyRow>, payments: map<string, PaymentRow>,
                       req: WebhookRequest, env: map<string, string>,
                       newCompanyId: string, newPaymentId: string): WebhookOutcome
  {
    match Screen(req, env)
    case Failure(response) => WebhookOutcome(response, companies, payments)
    case Success(admission) =>
      var company := UpsertCompany(companies, admission.companyKey, newCompanyId);
      if newPaymentId in payments then WebhookOutcome(InternalError(), company.0, payments)
      else
        WebhookOutcome(Created(newPaymentId), company.0,
                       payments[newPaymentId := NewPayment(company.1.id, admission.fields)])
  }

  /** The handler on the database, one write at a time. */
  method ReceiveFailedPayment(db: Db, req: WebhookRequest, env: map<string, string>,
                              newCompanyId: string, newPaymentId: string) returns (r: Response)
    modifies db`companies, db`payments
    ensures WebhookOutcome(r, db.companies, db.payments)
         == WebhookSpec(old(db.companies), old(db.payments), req, env, newCompanyId, newPaymentId)
  {
    var screened := Screen(req, env);
    if screened.Failure? {
      return screened.error;
    }
    var company := UpsertCompany(db.companies, screened.value.companyKey, newCompanyId);
    db.companies := company.0;
    if newPaymentId in db.payments {
      return InternalError();
    }
    db.payments := db.payments[newPaymentId := NewPayment(company.1.id, screened.value.fields)];
    r := Created(newPaymentId);
  }

  /** Without a configured secret the answer is 500 whatever the request, and nothing
      is written. */
  lemma UnsetSecretRejectsAll(companies: map<string, CompanyRow>, payments: map<string, PaymentRow>,
                              req: WebhookRequest, env: map<string, string>, newCompanyId: string, newPaymentId: string)
    requires SecretUnset(env)
    ensures WebhookSpec(companies, payments, req, env, newCompanyId, newPaymentId)
         == WebhookOutcome(JsonStatus(500, ErrorBody("Webhook secret not configured")), companies, payments)
  {
  }

  /** A rejected request writes nothing; an accepted one keeps every existing company
      row and every existing payment row. */
  lemma WritesOnlyWhenAdmitted(companies: map<string, CompanyRow>, payments: map<string, PaymentRow>,
                               req: WebhookRequest, env: map<string, string>, newCompanyId: string, newPaymentId: string)
    ensures var out := WebhookSpec(companies, payments, req, env, newCompanyId, newPaymentId);
      && (Screen(req, env).Failure? ==> out.companies == companies && out.payments == payments
                                        && out.response == Screen(req, env).error)
      && (forall k :: k in companies ==> k in out.companies && out.companies[k] == companies[k])
      && (forall k :: k in payments ==> k in out.payments && out.payments[k] == payments[k])
  {
  }

  /** An accepted call with a free payment id adds exactly that one payment and
      answers 201 with its id. */
  lemma AcceptedCreatesOnePayment(companies: map<string, CompanyRow>, payments: map<string, PaymentRow>,
                                  req: WebhookRequest, env: map<string, string>, newCompanyId: string, newPaymentId: string)
    requires Screen(req, env).Success? && newPaymentId !in payments
    ensures var out := WebhookSpec(companies, payments, req, env, newCompanyId, newPaymentId);
      && out.response == JsonStatus(201, Obj(map["success" := Bool(true), "id" := Str(newPaymentId)]))
      && out.payments.Keys == payments.Keys + {newPaymentId}
      && |out.payments| == |payments| + 1
  {
    assert |payments.Keys + {newPaymentId}| == |payments.Keys| + 1;
  }

  /** The new payment is marked "FAILED", hangs off the company's row id, and keeps the
      admitted fields; the company row is the existing one, or a new one with no name. */
  lemma AcceptedPaymentRow(companies: map<string, CompanyRow>, payments: map<string, PaymentRow>,
                           req: WebhookRequest, env: map<string, string>, newCompanyId: string, newPaymentId: string)
    requires Screen(req, env).Success? && newPaymentId !in payments
    ensures var out := WebhookSpec(companies, payments, req, env, newCompanyId, newPaymentId);
      var admission := Screen(req, env).value;
      && admission.companyKey in out.companies
      && out.payments[newPaymentId] == PaymentRow(
           out.companies[admission.companyKey].id, admission.fields.customerName, admission.fields.customerEmail,
           admission.fields.productName, admission.fields.amount, admission.fields.currency,
           admission.fields.reason, Str("FAILED"))
      && (admission.companyKey in companies ==> out.companies == companies)
      && (admission.companyKey !in companies ==> out.companies[admission.companyKey] == CompanyRow(newCompanyId, None))
  {
  }

  /** A clash on the generated payment id is the catch-all 500; the company upsert
      before it stays done. */
  lemma PaymentClashIsInternalError(companies: map<string, CompanyRow>, payments: map<string, PaymentRow>,
                                    req: WebhookRequest, env: map<string, string>, newCompanyId: string, newPaymentId: string)
    requires Screen(req, env).Success? && newPaymentId in payments
    ensures var out := WebhookSpec(companies, payments, req, env, newCompanyId, newPaymentId);
      && out.response == JsonStatus(500, ErrorBody("Internal server error"))
      && out.payments == payments
      && out.companies == UpsertCompany(companies, Screen(req, env).value.companyKey, newCompanyId).0
  {
  }

  /** An amount of 0 or `null` is present and passes; only a missing amount is refused. */
  lemma FalsyAmountPasses(req: WebhookRequest, env: map<string, string>, amount: JsValue)
    requires !SecretUnset(env) && Header(req, SecretHeader) == Some(env[SecretVariable])
    requires req.body.Some? && req.body.value.Obj?
    requires Truthy(EffectiveCompanyId(req, req.body.value))
    requires Truthy(Get(req.body.value, "customerName")) && Truthy(Get(req.body.value, "customerEmail"))
    requires Truthy(Get(req.body.value, "productName"))
    ensures var passes := Screen(req.(body := Some(Obj(req.body.value.fields["amount" := amount]))), env).Success?;
      && (amount == Num(0) ==> passes)
      && (amount == Null ==> passes)
      && (amount == Undefined ==> !passes)
  {
    var body := Obj(req.body.value.fields["amount" := amount]);
    var req' := req.(body := Some(body));
    assert Get(body, "amount") == amount;
    assert forall k :: k != "amount" ==> Get(body, k) == Get(req.body.value, k);
    assert EffectiveCompanyId(req', body) == EffectiveCompanyId(req, req.body.value);
  }

  /** The body's `company_id` wins over `companyId`, which wins over the header, each
      only when truthy. */
  lemma CompanyIdPrecedence(req: WebhookRequest, body: JsValue)
    ensures Truthy(Get(body, "company_id")) ==> EffectiveCompanyId(req, body) == Get(body, "company_id")
    ensures !Truthy(Get(body, "company_id")) && Truthy(Get(body, "companyId")) ==>
      EffectiveCompanyId(req, body) == Get(body, "companyId")
    ensures !Truthy(Get(body, "company_id")) && !Truthy(Get(body, "companyId")) ==>
      EffectiveCompanyId(req, body) == HeaderValue(req, CompanyHeader)
  {
  }
}
