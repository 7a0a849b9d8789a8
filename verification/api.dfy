/**
 * `ApiView`: the JSON envelope `ApiCommon.response` builds from what an
 * operation returns or raises, the default operations, the `UsersApi`
 * overrides, and the dispatch of HTTP verbs to operations behind the gate.
 */
module Api {
  import opened Wrappers
  import opened Json
  import opened Enums
  import opened Tables
  import opened Accounts
  import opened Access

  /** What calling an API operation produced. */
  datatype Outcome =
    | Pair(data: Json, code: int)               // returned a `(data, code)` tuple
    | Returned(value: Json)                     // returned any other value
    | ApiFailure(message: string, code: int)    // raised `ApiError(message, code)`
    | Raised(exception: string)                 // raised anything else

  /** What the client receives. */
  datatype Reply =
    | JsonReply(body: Json, status: Option<int>)  // `jsonify(data), code`; None keeps Flask's default
    | NotFoundPage                                // the rendered 404 page
    | MethodNotAllowed                            // the verb has no handler on this endpoint
    | Unhandled(exception: string)                // the exception propagates out of the view

  /** `data["success"] = flag` on the empty dictionary. */
  function Started(flag: bool): (fields: seq<(string, Json)>)
    ensures fields == [("success", JBool(flag))]
    ensures Keys(fields) == ["success"]
  {
    Set([], "success", JBool(flag))
  }

  /** A second key lands after `success`. */
  lemma AddAfterSuccess(flag: bool, key: string, v: Json)
    requires key != "success"
    ensures Set(Started(flag), key, v) == [("success", JBool(flag)), (key, v)]
  {
    assert key !in Keys(Started(flag));
  }

  /** The dictionary `response` fills in, one assignment at a time. */
  function Envelope(o: Outcome): (fields: seq<(string, Json)>)
    requires !o.Raised?
    ensures o.Pair? ==> fields == [("success", JBool(true)), ("data", o.data)]
    ensures o.Returned? && Truthy(o.value) ==> fields == [("success", JBool(true)), ("data", o.value)]
    ensures o.Returned? && !Truthy(o.value) ==> fields == [("success", JBool(true))]
    ensures o.ApiFailure? ==> fields == [("success", JBool(false)), ("error", JStr(o.message))]
  {
    match o
    case Pair(d, _) =>
      AddAfterSuccess(true, "data", d);
      Set(Started(true), "data", d)
    case Returned(v) =>
      AddAfterSuccess(true, "data", v);
      if Truthy(v) then Set(Started(true), "data", v) else Started(true)
    case ApiFailure(m, _) =>
      AddAfterSuccess(false, "error", JStr(m));
      Set(Started(false), "error", JStr(m))
  }

  /**
   * `ApiCommon.response`: a tuple gives its data and status; another truthy
   * value becomes the data with no explicit status; a falsy one gives
   * `{"success": true}` alone; an `ApiError` gives its message and status;
   * any other exception is not caught.
   */
  function Response(o: Outcome): (r: Reply)
    ensures o.Pair? ==>
      r == JsonReply(JObject([("success", JBool(true)), ("data", o.data)]), Some(o.code))
    ensures o.Returned? && Truthy(o.value) ==>
      r == JsonReply(JObject([("success", JBool(true)), ("data", o.value)]), None)
    ensures o.Returned? && !Truthy(o.value) ==>
      r == JsonReply(JObject([("success", JBool(true))]), None)
    ensures o.ApiFailure? ==>
      r == JsonReply(JObject([("success", JBool(false)), ("error", JStr(o.message))]), Some(o.code))
    ensures o.Raised? ==> r == Unhandled(o.exception)
  {
    match o
    case Raised(e) => Unhandled(e)
    case Pair(_, c) => JsonReply(JObject(Envelope(o)), Some(c))
    case Returned(_) => JsonReply(JObject(Envelope(o)), None)
    case ApiFailure(_, c) => JsonReply(JObject(Envelope(o)), Some(c))
  }

  /**
   * A client reading `success` (as the front end does) sees true exactly when
   * the operation returned, and sees `error` exactly when it raised an
   * `ApiError`.
   */
  lemma SuccessFlag(o: Outcome)
    requires !o.Raised?
    ensures Response(o).JsonReply?
    ensures Field(Response(o).body, "success") == Some(JBool(!o.ApiFailure?))
    ensures Field(Response(o).body, "error").Some? <==> o.ApiFailure?
  {
  }

  /** The five operations an API view answers, with the request data they read. */
  datatype Operation =
    | Create
    | List
    | Read(key: int)
    | Update(key: int, role: Option<string>)  // `request.json.get("role")`
    | Delete(key: int)

  /** Every operation a view does not override raises `ApiError("Not Allowed", 405)`. */
  function DefaultOperation(op: Operation): (o: Outcome)
    ensures o == ApiFailure("Not Allowed", 405)
  {
    match op
    case Create => ApiFailure("Not Allowed", 405)
    case List => ApiFailure("Not Allowed", 405)
    case Read(_) => ApiFailure("Not Allowed", 405)
    case Update(_, _) => ApiFailure("Not Allowed", 405)
    case Delete(_) => ApiFailure("Not Allowed", 405)
  }

  /** An unoverridden operation answers `{"success": false, "error": "Not Allowed"}` with 405. */
  lemma DefaultOperationsRefuse(op: Operation)
    ensures Response(DefaultOperation(op)) ==
      JsonReply(JObject([("success", JBool(false)), ("error", JStr("Not Allowed"))]), Some(405))
  {
  }

  type Users = seq<Row<User>>

  /**
   * `UsersApi.update(key)`: without a `role` it answers `({}, 204)`; an unknown
   * id raises "Not Found" (404); a role name `Role[...]` does not know raises
   * KeyError; otherwise the user's role is changed, saved, and the user
   * returned. Nothing is written unless the user is returned.
   */
  function UsersUpdate(users: Users, key: int, role: Option<string>): (r: (Outcome, Users))
    ensures role.None? ==> r == (Pair(JObject([]), 204), users)
    ensures role.Some? && GetById(users, key).None? ==> r == (ApiFailure("Not Found", 404), users)
    ensures role.Some? && GetById(users, key).Some? && RoleByName(role.value).None? ==>
              r.0.Raised? && r.1 == users
    ensures r.0.Returned? <==>
              role.Some? && GetById(users, key).Some? && RoleByName(role.value).Some?
    ensures r.0.Returned? && IdOrdered(users) ==>
              var before := GetById(users, key).value.value;
              var after := before.(role := RoleByName(role.value).value);
              && r.0 == Returned(SerializeUser(after))
              && GetById(r.1, key) == Some(Row(key, after))
              && (forall k :: k != key ==> GetById(r.1, k) == GetById(users, k))
              && IdOrdered(r.1)
    ensures !r.0.Returned? ==> r.1 == users
  {
    if role.None? then (Pair(JObject([]), 204), users)
    else
      match GetById(users, key)
      case None => (ApiFailure("Not Found", 404), users)
      case Some(row) =>
        match RoleByName(role.value)
        case None => (Raised("KeyError"), users)
        case Some(newRole) =>
          var updated := Row(row.id, row.value.(role := newRole));
          (Returned(SerializeUser(updated.value)), Save(users, updated))
  }

  /**
   * `UsersApi.delete(key)`: an unknown id raises "Not Found" (404); the
   * logged-in user's own id raises "Cannot delete self" (405); otherwise the
   * user is deleted and nothing is returned. Errors delete nothing.
   */
  function UsersDelete(users: Users, key: int, current: Option<Row<User>>): (r: (Outcome, Users))
    ensures GetById(users, key).None? ==> r == (ApiFailure("Not Found", 404), users)
    ensures GetById(users, key).Some? && current.Some? && current.value.id == key ==>
              r == (ApiFailure("Cannot delete self", 405), users)
    ensures r.0.Returned? <==>
              GetById(users, key).Some? && !(current.Some? && current.value.id == key)
    ensures r.0.Returned? ==> r.0 == Returned(JNull)
    ensures r.0.Returned? && IdOrdered(users) ==>
              && GetById(r.1, key).None?
              && (forall k :: k != key ==> GetById(r.1, k) == GetById(users, k))
              && IdOrdered(r.1)
    ensures !r.0.Returned? ==> r.1 == users
  {
    match GetById(users, key)
    case None => (ApiFailure("Not Found", 404), users)
    case Some(row) =>
      if current.Some? && current.value.id == row.id then
        (ApiFailure("Cannot delete self", 405), users)
      else
        DeleteLookupsAll(users, key);
        (Returned(JNull), Tables.Delete(users, key))
  }

  /** The operations of an API view: all defaults, or `UsersApi`'s overrides. */
  datatype ApiKind = DefaultApi | UsersApi

  /**
   * Runs an operation of the given API view against the users table: only
   * `UsersApi`'s update and delete do anything, every other operation is the
   * default refusal and writes nothing.
   */
  function Perform(kind: ApiKind, op: Operation, current: Option<Row<User>>, users: Users): (r: (Outcome, Users))
    ensures kind == DefaultApi ==> r == (ApiFailure("Not Allowed", 405), users)
    ensures kind == UsersApi && op.Update? ==> r == UsersUpdate(users, op.key, op.role)
    ensures kind == UsersApi && op.Delete? ==> r == UsersDelete(users, op.key, current)
    ensures kind == UsersApi && !op.Update? && !op.Delete? ==> r == (ApiFailure("Not Allowed", 405), users)
    ensures r.1 != users ==> kind == UsersApi && (op.Update? || op.Delete?)
  {
    match (kind, op)
    case (UsersApi, Update(key, role)) => UsersUpdate(users, key, role)
    case (UsersApi, Delete(key)) => UsersDelete(users, key, current)
    case _ => (DefaultOperation(op), users)
  }

  /** The HTTP verbs the API front end uses. */
  datatype Verb = Get | Post | Patch | DeleteVerb

  /** The two routes of an API view: the group route, and the item route with its key. */
  datatype Endpoint = Group | Item(key: int)

  /**
   * `GroupApi` answers GET with `list` and POST with `create`; `ItemApi`
   * answers GET with `read`, PATCH with `update` and DELETE with `delete`.
   * Any other verb has no handler.
   */
  function OperationFor(endpoint: Endpoint, verb: Verb, role: Option<string>): (op: Option<Operation>)
    ensures endpoint == Group && verb == Get ==> op == Some(List)
    ensures endpoint == Group && verb == Post ==> op == Some(Create)
    ensures endpoint.Item? && verb == Get ==> op == Some(Read(endpoint.key))
    ensures endpoint.Item? && verb == Patch ==> op == Some(Update(endpoint.key, role))
    ensures endpoint.Item? && verb == DeleteVerb ==> op == Some(Delete(endpoint.key))
    ensures endpoint.Group? ==> (op.Some? <==> verb == Get || verb == Post)
    ensures endpoint.Item? ==> (op.Some? <==> verb != Post)
  {
    match (endpoint, verb)
    case (Group, Get) => Some(List)
    case (Group, Post) => Some(Create)
    case (Item(k), Get) => Some(Read(k))
    case (Item(k), Patch) => Some(Update(k, role))
    case (Item(k), DeleteVerb) => Some(Delete(k))
    case _ => None
  }

  /** The route and verb with which a client asks for an operation. */
  function RequestFor(op: Operation): (Endpoint, Verb) {
    match op
    case List => (Group, Get)
    case Create => (Group, Post)
    case Read(k) => (Item(k), Get)
    case Update(k, _) => (Item(k), Patch)
    case Delete(k) => (Item(k), DeleteVerb)
  }

  /**
   * Every operation is reached by exactly one route and verb: a request runs
   * `op` exactly when it is `op`'s request, the PATCH carrying `op`'s role.
   */
  lemma OperationRouting(endpoint: Endpoint, verb: Verb, role: Option<string>, op: Operation)
    ensures OperationFor(endpoint, verb, role) == Some(op) <==>
              RequestFor(op) == (endpoint, verb) && (op.Update? ==> op.role == role)
  {
  }

  /** The role of the logged-in user, if any. */
  function RoleOf(current: Option<Row<User>>): Option<Role> {
    if current.Some? then Some(current.value.value.role) else None
  }

  /**
   * A request to an API view: the verb must have a handler, then
   * `ApiCommon.dispatch_request` applies the view's gate, and only then does
   * the operation run and its outcome get framed.
   */
  function ApiDispatch(gate: Gate, kind: ApiKind, endpoint: Endpoint, verb: Verb,
                       role: Option<string>, current: Option<Row<User>>, users: Users): (r: (Reply, Users))
    ensures OperationFor(endpoint, verb, role).None? ==> r == (MethodNotAllowed, users)
    ensures OperationFor(endpoint, verb, role).Some? && !UserAllowed(gate, RoleOf(current)) ==>
              r == (NotFoundPage, users)
    ensures OperationFor(endpoint, verb, role).Some? && UserAllowed(gate, RoleOf(current)) ==>
              var (o, after) := Perform(kind, OperationFor(endpoint, verb, role).value, current, users);
              r == (Response(o), after)
  {
    match OperationFor(endpoint, verb, role)
    case None => (MethodNotAllowed, users)
    case Some(op) =>
      Dispatch(gate, RoleOf(current),
               (s: Users) => var (o, after) := Perform(kind, op, current, s); (Response(o), after),
               NotFoundPage, users)
  }

  /** `UsersApi`'s attributes: only administrators may use it. */
  const UsersApiGate: Gate := Gate(false, Some(Admin))

  /**
   * An editor's PATCH to the users API gets the 404 page and no user
   * changes, whatever the request asks for.
   */
  lemma EditorCannotChangeRoles(users: Users, key: int, role: Option<string>, me: Row<User>)
    requires me.value.role == Editor
    ensures ApiDispatch(UsersApiGate, UsersApi, Item(key), Patch, role, Some(me), users) ==
            (NotFoundPage, users)
  {
    assert OperationFor(Item(key), Patch, role) == Some(Update(key, role));
    assert !UserAllowed(UsersApiGate, RoleOf(Some(me)));
  }

  /**
   * An administrator deleting their own account gets "Cannot delete self"
   * with status 405, and the account stays.
   */
  lemma AdminCannotDeleteSelf(users: Users, me: Row<User>)
    requires me.value.role == Admin && me in users && IdOrdered(users)
    ensures ApiDispatch(UsersApiGate, UsersApi, Item(me.id), DeleteVerb, None, Some(me), users) ==
            (JsonReply(JObject([("success", JBool(false)), ("error", JStr("Cannot delete self"))]), Some(405)),
             users)
  {
    var i :| 0 <= i < |users| && users[i] == me;
    GetByIdFinds(users, i);
    assert OperationFor(Item(me.id), DeleteVerb, None) == Some(Delete(me.id));
    assert UserAllowed(UsersApiGate, RoleOf(Some(me)));
    var o := ApiFailure("Cannot delete self", 405);
    assert UsersDelete(users, me.id, Some(me)) == (o, users);
    assert Perform(UsersApi, Delete(me.id), Some(me), users) == (o, users);
  }

  /** On a view that overrides nothing, every allowed request is refused with 405. */
  lemma DefaultApiRefusesAll(gate: Gate, endpoint: Endpoint, verb: Verb, role: Option<string>,
                             current: Option<Row<User>>, users: Users)
    requires OperationFor(endpoint, verb, role).Some? && UserAllowed(gate, RoleOf(current))
    ensures ApiDispatch(gate, DefaultApi, endpoint, verb, role, current, users) ==
            (JsonReply(JObject([("success", JBool(false)), ("error", JStr("Not Allowed"))]), Some(405)),
             users)
  {
    DefaultOperationsRefuse(OperationFor(endpoint, verb, role).value);
  }
}
