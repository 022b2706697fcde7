/**
 * The `/ping` and `/wishlists` handlers of the API server as decision
 * functions. Each database call is represented by the outcome it would have
 * (`None` for `undefined`); the handler's result records which calls it made
 * and the one reply it sent.
 */
module Api {
  import opened Wrappers
  import opened Js
  import ServerValidate

  /** The response envelope; `data` is left out of the JSON when `None`. */
  datatype Envelope<D> = Envelope(status: int, message: string, date: string, data: Option<D>)

  /** What `sendResponse` hands to Express: the HTTP status and the JSON body. */
  datatype Reply<D> = Reply(httpStatus: int, body: Envelope<D>)

  /** The wishlist collaborator's operations. The id is the raw path
      parameter, which the handler passes through `Number()`. */
  datatype DbCall =
    | GetAll
    | Exists(id: string)
    | Get(id: string)
    | Create(name: JsValue, date: JsValue)
    | Update(id: string, name: JsValue, date: JsValue)
    | Delete(id: string)

  /** One request's run: the database calls in order, then the reply. */
  datatype Handled<D> = Handled(calls: seq<DbCall>, reply: Reply<D>)

  const BadRequest := "Bad request."
  const NotFound := "Wishlist not found."
  const ServerError := "Internal server error."

  /** The keys of the JSON object Express sends. */
  function BodyKeys<D>(e: Envelope<D>): set<string> {
    {"status", "message", "date"} + (if e.data.Some? then {"data"} else {})
  }

  /** `sendResponse`: copy status, message and date into a fresh envelope,
      add `data` only when it is not `undefined`, and send it with the
      envelope's status as the HTTP status. */
  function SendResponse<D>(details: Envelope<D>): (r: Reply<D>)
    ensures r.httpStatus == r.body.status == details.status
    ensures r.body.message == details.message && r.body.date == details.date
    ensures "data" in BodyKeys(r.body) <==> details.data.Some?
    ensures details.data.Some? ==> r.body.data == details.data
  {
    var response := Envelope(details.status, details.message, details.date, None);
    var response := if details.data.Some? then response.(data := details.data) else response;
    Reply(response.status, response)
  }

  /** `GET /ping`. */
  function Ping<D>(now: string): (r: Reply<D>)
    ensures r.httpStatus == 200 && r.body.message == "Pong!" && r.body.data.None? && r.body.date == now
  {
    SendResponse(Envelope(200, "Pong!", now, None))
  }

  /** A reply without data. */
  ghost predicate Plain<D>(r: Reply<D>, status: int, message: string, now: string) {
    r.httpStatus == status && r.body == Envelope(status, message, now, None)
  }

  /** The guard chain of the id-addressed handlers: 400 when the input is
      invalid, before any call; 404 when the existence check does not yield
      `true`, before the operation; 500 when the operation yields
      `undefined`; otherwise the success status with the operation's result. */
  ghost predicate IdProtocol<D>(h: Handled<D>, now: string, valid: bool, found: Option<bool>, existsCall: DbCall,
                                 op: DbCall, result: Option<D>, success: int, successMessage: string)
  {
    && (!valid ==> h.calls == [] && Plain(h.reply, 400, BadRequest, now))
    && (valid && found != Some(true) ==> h.calls == [existsCall] && Plain(h.reply, 404, NotFound, now))
    && (valid && found == Some(true) && result.None? ==>
          h.calls == [existsCall, op] && Plain(h.reply, 500, ServerError, now))
    && (valid && found == Some(true) && result.Some? ==>
          h.calls == [existsCall, op] && h.reply.httpStatus == success &&
          h.reply.body == Envelope(success, successMessage, now, result))
  }

  /** The guard chain of `POST`, which has no existence step. */
  ghost predicate CreateProtocol<D>(h: Handled<D>, now: string, valid: bool, op: DbCall, result: Option<D>) {
    && (!valid ==> h.calls == [] && Plain(h.reply, 400, BadRequest, now))
    && (valid && result.None? ==> h.calls == [op] && Plain(h.reply, 500, ServerError, now))
    && (valid && result.Some? ==>
          h.calls == [op] && h.reply.httpStatus == 201 &&
          h.reply.body == Envelope(201, "Created wishlist.", now, result))
  }

  /** `GET /wishlists`. */
  function GetWishlists<D>(now: string, all: Option<D>): (h: Handled<D>)
    ensures h.calls == [GetAll]
    ensures all.None? ==> Plain(h.reply, 500, ServerError, now)
    ensures all.Some? ==> h.reply.httpStatus == 200 && h.reply.body == Envelope(200, "Fetched wishlists.", now, all)
  {
    if all.None? then Handled([GetAll], SendResponse(Envelope(500, ServerError, now, None)))
    else Handled([GetAll], SendResponse(Envelope(200, "Fetched wishlists.", now, all)))
  }

  /** `GET /wishlists/:wishlist_id`; `found` and `got` are what
      `wishlist.exists` and `wishlist.get` would yield. */
  function GetWishlist<D>(rt: Runtime, id: string, now: string, found: Option<bool>, got: Option<D>): (h: Handled<D>)
    ensures IdProtocol(h, now, ServerValidate.Number(rt, JsString(id)), found, Exists(id), Get(id), got,
                       200, "Fetched wishlist.")
  {
    if !ServerValidate.Number(rt, JsString(id)) then
      Handled([], SendResponse(Envelope(400, BadRequest, now, None)))
    else if !(found == Some(true)) then
      Handled([Exists(id)], SendResponse(Envelope(404, NotFound, now, None)))
    else if got.None? then
      Handled([Exists(id), Get(id)], SendResponse(Envelope(500, ServerError, now, None)))
    else
      Handled([Exists(id), Get(id)], SendResponse(Envelope(200, "Fetched wishlist.", now, got)))
  }

  /** `POST /wishlists`; `name` and `date` are the body's `wishlist_name`
      and `wishlist_date`, any JSON value or `undefined`. */
  function PostWishlist<D>(rt: Runtime, name: JsValue, date: JsValue, now: string, created: Option<D>): (h: Handled<D>)
    ensures CreateProtocol(h, now, ServerValidate.Name(name) && ServerValidate.Date(rt, date), Create(name, date), created)
  {
    if !ServerValidate.Name(name) || !ServerValidate.Date(rt, date) then
      Handled([], SendResponse(Envelope(400, BadRequest, now, None)))
    else if created.None? then
      Handled([Create(name, date)], SendResponse(Envelope(500, ServerError, now, None)))
    else
      Handled([Create(name, date)], SendResponse(Envelope(201, "Created wishlist.", now, created)))
  }

  /** `PUT /wishlists/:wishlist_id`. */
  function PutWishlist<D>(rt: Runtime, id: string, name: JsValue, date: JsValue, now: string,
                          found: Option<bool>, updated: Option<D>): (h: Handled<D>)
    ensures IdProtocol(h, now, ServerValidate.Number(rt, JsString(id)) && ServerValidate.Name(name) &&
                               ServerValidate.Date(rt, date),
                       found, Exists(id), Update(id, name, date), updated, 200, "Updated wishlist.")
  {
    if !ServerValidate.Number(rt, JsString(id)) || !ServerValidate.Name(name) || !ServerValidate.Date(rt, date) then
      Handled([], SendResponse(Envelope(400, BadRequest, now, None)))
    else if !(found == Some(true)) then
      Handled([Exists(id)], SendResponse(Envelope(404, NotFound, now, None)))
    else if updated.None? then
      Handled([Exists(id), Update(id, name, date)], SendResponse(Envelope(500, ServerError, now, None)))
    else
      Handled([Exists(id), Update(id, name, date)], SendResponse(Envelope(200, "Updated wishlist.", now, updated)))
  }

  /** `DELETE /wishlists/:wishlist_id`. */
  function DeleteWishlist<D>(rt: Runtime, id: string, now: string, found: Option<bool>, deleted: Option<D>): (h: Handled<D>)
    ensures IdProtocol(h, now, ServerValidate.Number(rt, JsString(id)), found, Exists(id), Delete(id), deleted,
                       200, "Deleted wishlist.")
  {
    if !ServerValidate.Number(rt, JsString(id)) then
      Handled([], SendResponse(Envelope(400, BadRequest, now, None)))
    else if !(found == Some(true)) then
      Handled([Exists(id)], SendResponse(Envelope(404, NotFound, now, None)))
    else if deleted.None? then
      Handled([Exists(id), Delete(id)], SendResponse(Envelope(500, ServerError, now, None)))
    else
      Handled([Exists(id), Delete(id)], SendResponse(Envelope(200, "Deleted wishlist.", now, deleted)))
  }

  /** What the guard chain implies for any handler that follows it: the
      status tells how far the chain got, no call is made on a 400, the
      operation runs only after a `true` existence check, data travels only
      with the success status, and the HTTP status is the envelope's. */
  lemma IdProtocolOrder<D>(h: Handled<D>, now: string, valid: bool, found: Option<bool>, existsCall: DbCall,
                           op: DbCall, result: Option<D>, success: int, successMessage: string)
    requires IdProtocol(h, now, valid, found, existsCall, op, result, success, successMessage)
    requires success !in {400, 404, 500} && op != existsCall
    ensures h.reply.httpStatus == h.reply.body.status
    ensures h.reply.httpStatus in {400, 404, 500, success}
    ensures h.reply.httpStatus == 400 <==> !valid
    ensures h.reply.httpStatus == 400 <==> h.calls == []
    ensures h.reply.httpStatus == 404 <==> valid && found != Some(true)
    ensures h.reply.httpStatus == 500 <==> valid && found == Some(true) && result.None?
    ensures h.reply.httpStatus == success <==> valid && found == Some(true) && result.Some?
    ensures op in h.calls <==> valid && found == Some(true)
    ensures h.reply.body.data.Some? <==> h.reply.httpStatus == success
  {
  }

  /** A failed existence check (`undefined`) is negated like `false`: a
      valid id then yields 404 and the operation is never called. */
  lemma UndefinedExistsIsNotFound<D>(rt: Runtime, id: string, now: string, got: Option<D>)
    requires ServerValidate.Number(rt, JsString(id))
    ensures GetWishlist(rt, id, now, None, got).reply.httpStatus == 404
    ensures GetWishlist(rt, id, now, None, got).calls == [Exists(id)]
    ensures DeleteWishlist(rt, id, now, None, got).reply.httpStatus == 404
  {
  }

  /** The same for `POST`. */
  lemma CreateProtocolOrder<D>(h: Handled<D>, now: string, valid: bool, op: DbCall, result: Option<D>)
    requires CreateProtocol(h, now, valid, op, result)
    ensures h.reply.httpStatus == h.reply.body.status
    ensures h.reply.httpStatus == 400 <==> !valid
    ensures h.reply.httpStatus == 500 <==> valid && result.None?
    ensures h.reply.httpStatus == 201 <==> valid && result.Some?
    ensures h.calls == [] <==> !valid
  {
  }
}
