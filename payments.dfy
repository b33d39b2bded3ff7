/** `GET` and `PATCH /api/payments?id=...` over the failed-payment table. */
module Payments {
  import opened Wrappers
  import opened Json
  import opened Http
  import opened Store

  /** A row as `NextResponse.json` renders it, with its id. */
  function PaymentJson(id: string, row: PaymentRow): JsValue
  {
    Obj(map[
      "id" := Str(id), "companyId" := Str(row.companyId),
      "customerName" := row.customerName, "customerEmail" := row.customerEmail,
      "productName" := row.productName, "amount" := row.amount, "currency" := row.currency,
      "reason" := row.reason, "status" := row.status])
  }

  function ServerError(): Response
  {
    JsonStatus(500, ErrorBody("Server error"))
  }

  /** `searchParams.get("id")`, truthy: present and non-empty. */
  predicate HasId(query: Query)
  {
    QueryGet(query, "id").Some? && QueryGet(query, "id").value != ""
  }

  /** `GET`: read-only, so a function of the table. */
  function GetPayment(payments: map<string, PaymentRow>, query: Query): (r: Response)
    ensures !HasId(query) ==> r == JsonStatus(400, ErrorBody("Missing id"))
    ensures HasId(query) && QueryGet(query, "id").value !in payments ==> r == JsonStatus(404, ErrorBody("Not found"))
    ensures HasId(query) && QueryGet(query, "id").value in payments ==>
      var id := QueryGet(query, "id").value;
      r == JsonStatus(200, PaymentJson(id, payments[id]))
  {
    var id := QueryGet(query, "id");
    if id.None? || id.value == "" then JsonStatus(400, ErrorBody("Missing id"))
    else if id.value !in payments then JsonStatus(404, ErrorBody("Not found"))
    else JsonStatus(200, PaymentJson(id.value, payments[id.value]))
  }

  /** What a `PATCH` answers, and the table after it. `body` is `None` when the request
      text is not JSON. */
  datatype PatchOutcome = PatchOutcome(response: Response, payments: map<string, PaymentRow>)

  function PatchSpec(payments: map<string, PaymentRow>, query: Query, body: Option<JsValue>): PatchOutcome
  {
    if body.None? then PatchOutcome(ServerError(), payments)
    else if !HasId(query) || !Truthy(Get(body.value, "status")) then
      PatchOutcome(JsonStatus(400, ErrorBody("Missing id or status")), payments)
    else
      var id := QueryGet(query, "id").value;
      if id !in payments then PatchOutcome(ServerError(), payments)
      else
        var updated := payments[id].(status := Get(body.value, "status"));
        PatchOutcome(JsonStatus(200, PaymentJson(id, updated)), payments[id := updated])
  }

  /** `PATCH`: the update in place. */
  method PatchPayment(db: Db, query: Query, body: Option<JsValue>) returns (r: Response)
    modifies db`payments
    ensures PatchOutcome(r, db.payments) == PatchSpec(old(db.payments), query, body)
  {
    if body.None? {
      return ServerError();
    }
    var id := QueryGet(query, "id");
    if id.None? || id.value == "" || !Truthy(Get(body.value, "status")) {
      return JsonStatus(400, ErrorBody("Missing id or status"));
    }
    if id.value !in db.payments {
      return ServerError();
    }
    var updated := db.payments[id.value].(status := Get(body.value, "status"));
    db.payments := db.payments[id.value := updated];
    r := JsonStatus(200, PaymentJson(id.value, updated));
  }

  /** A missing id or a falsy status is 400 and leaves the table alone; an unparseable
      body is 500 even without an id, since the body is read first. */
  lemma PatchRejections(payments: map<string, PaymentRow>, query: Query, body: Option<JsValue>)
    ensures body.None? ==> PatchSpec(payments, query, body) == PatchOutcome(ServerError(), payments)
    ensures body.Some? && (!HasId(query) || !Truthy(Get(body.value, "status"))) ==>
      PatchSpec(payments, query, body) == PatchOutcome(JsonStatus(400, ErrorBody("Missing id or status")), payments)
    ensures body.Some? && HasId(query) && QueryGet(query, "id").value !in payments ==>
      PatchSpec(payments, query, body).payments == payments
  {
  }

  /** On an existing id, only that row's status changes, to the body's (truthy) status;
      the answer is the updated row. */
  lemma PatchUpdatesOnlyStatus(payments: map<string, PaymentRow>, query: Query, body: Option<JsValue>)
    requires body.Some? && HasId(query) && Truthy(Get(body.value, "status"))
    requires QueryGet(query, "id").value in payments
    ensures var id := QueryGet(query, "id").value;
      var out := PatchSpec(payments, query, body);
      && out.payments.Keys == payments.Keys
      && out.payments[id].status == Get(body.value, "status")
      && out.payments[id].(status := payments[id].status) == payments[id]
      && (forall k :: k in payments && k != id ==> out.payments[k] == payments[k])
      && out.response == JsonStatus(200, PaymentJson(id, out.payments[id]))
  {
  }

  /** The two routes agree: after a successful `PATCH`, a `GET` of the same id returns
      what the `PATCH` answered. */
  lemma GetAfterPatch(payments: map<string, PaymentRow>, query: Query, body: Option<JsValue>)
    requires body.Some? && HasId(query) && Truthy(Get(body.value, "status"))
    requires QueryGet(query, "id").value in payments
    ensures GetPayment(PatchSpec(payments, query, body).payments, query) == PatchSpec(payments, query, body).response
  {
  }
}
