/**
 * `UserHandler.setupRoutes` of user/users.js: six HTTP routes, each building a
 * user from the request, calling the service and turning its `[status, payload]`
 * pair, or the fault it throws, into an HTTP response.
 */
module Routes {
  import opened Results
  import opened JsValues
  import opened Users
  import opened Storage
  import opened UserService

  /** The routes, in the order they are registered. */
  datatype Route =
    | ListUsers    // GET    /users
    | CreateUser   // POST   /users
    | ReplaceUser  // PUT    /users/:userId
    | UpdateUser   // PATCH  /users/:userId
    | ReadUser     // GET    /users/:userId
    | RemoveUser   // DELETE /users/:userId

  /** The message a route answers with status 500 when the service throws. */
  function FaultMessage(route: Route): (msg: string)
    ensures msg == "Could not update user" <==> route == ReplaceUser || route == UpdateUser
  {
    match route
    case ListUsers => "Could not retrieve users"
    case CreateUser => "Could not create user"
    case ReplaceUser => "Could not update user"
    case UpdateUser => "Could not update user"
    case ReadUser => "Could not retrieve user"
    case RemoveUser => "Could not delete user"
  }

  /** A JSON response body: the payload itself, or `{ error: payload }`. */
  datatype Body = Json(content: Payload) | ErrorJson(content: Payload)

  datatype HttpResponse = HttpResponse(status: int, body: Body)

  /**
   * The response of a route to the outcome of its service call: a 200 answer is
   * sent as it is with status 200, any other answer as `{ error }` under its own
   * status, and a fault as `{ error }` with the route's message and status 500.
   */
  function Respond(route: Route, outcome: Outcome): (resp: HttpResponse)
    ensures resp.body.Json? <==> outcome.Returned? && outcome.code == 200
    ensures resp.body.Json? <==> resp.status == 200
    ensures outcome.Returned? ==> resp.status == outcome.code && resp.body.content == outcome.payload
    ensures outcome.Thrown? ==> resp.status == 500 && resp.body == ErrorJson(Text(FaultMessage(route)))
  {
    match outcome
    case Thrown => HttpResponse(500, ErrorJson(Text(FaultMessage(route))))
    case Returned(code, payload) =>
      if code == 200 then HttpResponse(200, Json(payload)) else HttpResponse(code, ErrorJson(payload))
  }

  /**
   * A partial update the storage answers with status 500 cannot be told apart
   * from one whose storage call throws: both answer 500 with the same message.
   */
  lemma PatchStorageErrorLooksLikeFault()
    ensures Respond(UpdateUser, Returned(500, Text(CouldNotUpdate))) == Respond(UpdateUser, Thrown)
  {
  }

  /**
   * The user of a POST: all four fields from the body (a missing field is
   * `undefined`). Unlike PUT and PATCH, its id can fail the string check.
   */
  function BodyUser(body: Item): (u: User)
    ensures FullValidate(u) == UserIdNotString <==> !(KeyAttribute in body && body[KeyAttribute].Str?)
  {
    User(AttributeOf(body, "userId"), AttributeOf(body, "name"), AttributeOf(body, "email"), AttributeOf(body, "dateOfBirth"))
  }

  /** The user of a PUT or PATCH: the id from the path, the rest from the body. */
  function PathUser(userId: string, body: Item): User
  {
    User(Str(userId), AttributeOf(body, "name"), AttributeOf(body, "email"), AttributeOf(body, "dateOfBirth"))
  }

  /**
   * The id of a PUT or PATCH always comes from the path, so a `userId` in the body
   * is ignored and "must be a string" is never the answer.
   */
  lemma PathUserIgnoresBodyId(userId: string, body: Item, id: JsValue)
    ensures PathUser(userId, body[KeyAttribute := id]) == PathUser(userId, body - {KeyAttribute})
    ensures FullValidate(PathUser(userId, body)) != UserIdNotString
  {
    var with := body[KeyAttribute := id];
    var without := body - {KeyAttribute};
    assert AttributeOf(with, "name") == AttributeOf(without, "name");
    assert AttributeOf(with, "email") == AttributeOf(without, "email");
    assert AttributeOf(with, "dateOfBirth") == AttributeOf(without, "dateOfBirth");
  }

  /**
   * The routes as their closures evidently mean them, calling the service the
   * handler was built with. Every route answers `Respond` of its service call.
   */
  class Handler {
    const service: Service

    constructor (service: Service)
      ensures this.service == service
    {
      this.service := service;
    }

    /** GET /users. */
    method List(order: seq<string>, fault: bool) returns (resp: HttpResponse)
      requires ListsKeysOnce(order, service.table.items)
      ensures fault ==> resp == HttpResponse(500, ErrorJson(Text("Could not retrieve users")))
      ensures !fault ==> resp.status == 200 && resp.body.Json? && resp.body.content.UserList?
                         && |resp.body.content.users| == |service.table.items|
      ensures !fault ==> forall k :: k in service.table.items ==>
                           UserOf(service.table.items[k]) in resp.body.content.users
    {
      var outcome := service.GetAll(order, fault);
      resp := Respond(ListUsers, outcome);
    }

    /** POST /users. */
    method Create(body: Item, fault: bool) returns (resp: HttpResponse)
      requires service.table.Valid()
      modifies service.table
      ensures service.table.Valid()
      ensures var u := BodyUser(body);
        && (FullValidate(u) != "" ==>
              resp == HttpResponse(400, ErrorJson(Text(FullValidate(u)))) && unchanged(service.table))
        && (FullValidate(u) == "" && fault ==>
              resp == HttpResponse(500, ErrorJson(Text("Could not create user")))
              && service.table.items == old(service.table.items))
        && (FullValidate(u) == "" && !fault ==>
              resp == HttpResponse(200, Json(Confirmation(UserCreated)))
              && service.table.items == old(service.table.items)[u.userId.s := ItemOf(u)])
    {
      var outcome := service.Post(BodyUser(body), fault);
      resp := Respond(CreateUser, outcome);
    }

    /** PUT /users/:userId. */
    method Replace(userId: string, body: Item, fault: bool) returns (resp: HttpResponse)
      requires service.table.Valid()
      modifies service.table
      ensures service.table.Valid()
      ensures var u := PathUser(userId, body);
        && (FullValidate(u) != "" ==>
              resp == HttpResponse(400, ErrorJson(Text(FullValidate(u)))) && unchanged(service.table))
        && (FullValidate(u) == "" && fault ==>
              resp == HttpResponse(500, ErrorJson(Text("Could not update user")))
              && service.table.items == old(service.table.items))
        && (FullValidate(u) == "" && !fault ==>
              resp == HttpResponse(200, Json(Confirmation(UserUpdated)))
              && service.table.items == old(service.table.items)[userId := ItemOf(u)])
    {
      var outcome := service.Put(PathUser(userId, body), fault);
      resp := Respond(ReplaceUser, outcome);
    }

    /** PATCH /users/:userId. */
    method Update(userId: string, body: Item, answer: Answer) returns (resp: HttpResponse)
      requires service.table.Valid()
      modifies service.table
      ensures service.table.Valid()
      ensures var u := PathUser(userId, body);
        && (PlanUpdate(u).Failure? ==>
              resp == HttpResponse(400, ErrorJson(Text(PlanUpdate(u).error))) && unchanged(service.table))
        && (PlanUpdate(u).Success? && answer.Faults? ==>
              resp == HttpResponse(500, ErrorJson(Text(CouldNotUpdate)))
              && service.table.items == old(service.table.items))
        && (PlanUpdate(u).Success? && answer.Status? && answer.code != 200 ==>
              resp == HttpResponse(answer.code, ErrorJson(Text(CouldNotUpdate)))
              && service.table.items == old(service.table.items))
        && (PlanUpdate(u).Success? && answer == Status(200) ==>
              && userId in service.table.items
              && resp == HttpResponse(200, Json(Attributes(Some(service.table.items[userId]))))
              && service.table.items == old(service.table.items)[userId := service.table.items[userId]])
    {
      var outcome := service.Patch(PathUser(userId, body), answer);
      resp := Respond(UpdateUser, outcome);
    }

    /** GET /users/:userId. */
    method Read(userId: string, fault: bool) returns (resp: HttpResponse)
      ensures !fault && userId in service.table.items ==>
        resp == HttpResponse(200, Json(OneUser(UserOf(service.table.items[userId]))))
      ensures fault || userId !in service.table.items ==>
        resp == HttpResponse(500, ErrorJson(Text("Could not retrieve user")))
    {
      var outcome := service.Get(userId, fault);
      resp := Respond(ReadUser, outcome);
    }

    /** DELETE /users/:userId. */
    method Remove(userId: string, fault: bool) returns (resp: HttpResponse)
      requires service.table.Valid()
      modifies service.table
      ensures service.table.Valid()
      ensures fault ==>
        resp == HttpResponse(500, ErrorJson(Text("Could not delete user")))
        && service.table.items == old(service.table.items)
      ensures !fault ==>
        && resp.status == 200
        && resp.body == Json(Attributes(if userId in old(service.table.items)
                                        then Some(old(service.table.items)[userId]) else None))
        && service.table.items == old(service.table.items) - {userId}
    {
      var outcome := service.Delete(userId, fault);
      resp := Respond(RemoveUser, outcome);
    }
  }

  // ---------------------------------------------------------------------------
  // The routes as written

  /**
   * The closures of user/users.js call a `userService` that is not bound in that
   * module (the handler keeps its service in `this.userService`, and the caller's
   * variable of that name is local to its own module). The lookup throws inside
   * each `try`, so every route answers its fault, whatever the service would do.
   */
  function RespondAsWritten(route: Route): (resp: HttpResponse)
    ensures resp.status == 500 && resp.body.ErrorJson?
  {
    Respond(route, Thrown)
  }

  /** As written, no route ever answers what its service call would have answered with success. */
  lemma AsWrittenNeverSucceeds(route: Route, payload: Payload)
    ensures RespondAsWritten(route) != Respond(route, Returned(200, payload))
    ensures Respond(route, Returned(200, payload)).status == 200
  {
  }
}
