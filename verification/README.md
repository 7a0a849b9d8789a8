# gamecafe, modelled in Dafny

gamecafe is a small Flask web application for a board-game café. It has a
catalogue of games, curated collections, user accounts with three roles
(USER, EDITOR, ADMIN) and a JSON API. This project models the core of its
request handling and its models layer as pure Dafny functions, and proves
properties of them.

- **Access gate** (`RoleView.user_allowed`, `dispatch_request`). A view may
  require a logged-in user, a minimum role, or both. A request that fails the
  gate gets the 404 page and the handler never runs (`Access`).
- **Query parameters** (`page_num`, `per_page`). The page number is clamped
  to at least 1. The page size is clamped to 1–50 and defaults to 12
  (`Access`).
- **View registration** (`_get_subviews`, `register_all_subviews` and both
  `_register` variants). The class hierarchy is walked depth first, with
  subclasses first. Every class is registered once, even when multiple
  inheritance reaches it twice. A page view adds one URL rule; an API view
  adds a group rule and an item rule `<route>/<key>` (`Registry`). The
  application's own hierarchy of 19 view classes is instantiated in
  `GameCafe`, together with the four list pages.
- **API envelope** (`ApiCommon.response`, the default CRUD operations,
  `UsersApi.update`/`delete`, and the verb-to-operation dispatch of
  `GroupApi`/`ItemApi`) (`Api`).
- **Pagination** (`IdModel.paginate`, `Page`, `Page.serialize`) and the
  id-keyed table operations `get_by_id`, `save`, `delete` and `serialize`
  (`Pagination`, `Tables`). The JSON values and insertion-ordered
  dictionaries the views produce are in `Json`.
- **Passwords** (`validate_password`, `_set_password`, `hash_password`,
  `check_password`), plus `User.__init__`, `User.serializable`,
  `Role.__str__` and `Tag.Type.__str__` (`Passwords`, `Accounts`, `Enums`,
  `Hex`).

The database is a sequence of rows `Row(id, value)`. A Python exception is a
`Failure`, an `ApiFailure` or a `Raised` outcome. Randomness (`urandom`) and
the key-derivation function (`pbkdf2_hmac`) are parameters.

`response` never sets a status for a result that is not a tuple
(views.py:120-126), so Flask's default applies; `Api.Response` returns status
`None` there.

## Model

| member | source | states |
|---|---|---|
| Access.UserAllowed | gamecafe/views.py:27-35 | Full characterisation of the gate: an open view admits everyone; a view needing login or a role refuses anonymous visitors; a role requirement admits exactly the users whose role ranks at least as high |
| Access.AllowedIsMonotone | gamecafe/views.py:27-35 | Raising a user's role never takes access away |
| Access.MinimumRoleExamples | gamecafe/views.py:27-35 | A USER minimum admits every role; an EDITOR minimum admits exactly the non-USER roles; an ADMIN minimum admits only ADMIN |
| Access.UserAllowedAsWritten | gamecafe/views.py:27-35 | The gate as written raises exactly when a minimum role is set and a user is logged in; otherwise it agrees with `UserAllowed` |
| Access.AsWrittenLocksOutAdmin | gamecafe/views.py:32 | As written, an administrator opening an ADMIN-only view gets a TypeError, although the intended gate admits them |
| Access.PageNum | gamecafe/views.py:37-39 | The page number is at least 1: missing gives 1, a positive value is kept, anything lower becomes 1 |
| Access.PerPage | gamecafe/views.py:41-44 | The page size always lies in 1..50: in-range values are kept, smaller ones become 1, larger ones 50, and a missing value uses the default |
| Access.ClampingIsIdempotent | gamecafe/views.py:37-44 | Clamping an already clamped value changes nothing, and the default page size is 12 |
| Access.Dispatch | gamecafe/views.py:46-50 | A request that fails the gate gets the 404 page and leaves the state as it was; one that passes gets exactly what the handler does |
| Registry.Subviews | gamecafe/views.py:57-61 | Every class the walk yields is a proper subclass, so it has a larger index than the class walked |
| Registry.SubviewsAreDescendants | gamecafe/views.py:57-61 | The walk yields exactly the transitive subclasses, by reference to subclass paths, and never the class itself |
| Registry.WalkIsPostOrder | gamecafe/views.py:57-61 | In the walk, every subclass of a yielded class has already been yielded before it |
| Registry.ClassRules | gamecafe/views.py:52-55 | A page view adds one rule at its route (`RoleView._register`); an API view adds a group rule at its route and an item rule at route + "/<key>" (`ApiView._register`, views.py:159-165) |
| Registry.RegisterAll | gamecafe/views.py:63-73 | The `registered` set is exactly the transitive subclasses; exactly those with a route are registered, each once, never the root, subclasses before superclasses; the rules are those of the registered classes in order |
| GameCafe.WalkFromRoleView | gamecafe/views.py:57-61 | On the application's own 19 view classes, the walk from RoleView is the listed sequence, with EditCollection yielded twice |
| GameCafe.DescendantsOfRoleView | gamecafe/views.py:76-466 | Every view class other than RoleView is a transitive subclass of RoleView |
| GameCafe.RegisterViews | gamecafe/views.py:63-73 | Registering the application registers exactly the 15 routed views, each once (EditCollection included), Register before Login and EditCollection before ViewCollection; no two of the URL rules added share an endpoint name or a URL pattern, so `add_url_rule` accepts them all; the rules are exactly those the registered classes add, in registration order |
| Registry.RulesOfApart | gamecafe/views.py:52-55 | Registering distinct classes whose names and routes are apart (no shared name or route, no class named like an API endpoint, no route ending in "/<key>") adds rules with pairwise distinct endpoint names and pairwise distinct URL patterns, each rule one its class adds |
| GameCafe.GatesAgree | gamecafe/views.py:269-466 | The list pages carry the gates and routes their classes declare |
| GameCafe.PageSize | gamecafe/views.py:269-466 | The users page shows 10 rows, the games page 12, the reports page 15, and the collections page the clamped `per_page` argument (default 12); every size lies in 1..50 |
| GameCafe.ShowList | gamecafe/views.py:269-466 | A list page is refused exactly when the gate refuses; otherwise it shows exactly what `paginate` gives for the clamped page number and the view's page size: the requested page, at most one page size of rows, every row from the table, in id order |
| GameCafe.UsersApiAgrees | gamecafe/views.py:279-282 | The gate the users API is modelled with is the one its class declares: ADMIN minimum, an API view at `/api/users` |
| GameCafe.AnonymousVisitor | gamecafe/views.py:309-322 | Anonymous visitors see the games and collections pages but not the users or reports pages |
| GameCafe.EditorAndAdmin | gamecafe/views.py:459-466 | An editor sees reports but not the user list; an administrator sees both |
| Json.Set | gamecafe/views.py:116-131 | `d[key] = value`: the key then maps to the value and every other key keeps its value; an existing key keeps its position, a new key is appended at the end |
| Api.Envelope | gamecafe/views.py:113-134 | The dictionary `response` builds, in key order, for a tuple, a truthy value, a falsy value and an ApiError |
| Api.Response | gamecafe/views.py:113-134 | The reply for each outcome: a tuple gives its data and status, another truthy value its data with no status, a falsy value `{"success": true}` alone, an ApiError its message and code; other exceptions propagate |
| Api.SuccessFlag | gamecafe/views.py:113-134 | A client reads `success` true exactly when the operation did not raise an ApiError, and finds `error` exactly when it did |
| Api.DefaultOperation | gamecafe/views.py:167-185 | Every operation a view does not override raises "Not Allowed" with 405 |
| Api.DefaultOperationsRefuse | gamecafe/views.py:167-185 | An operation that is not overridden answers `{"success": false, "error": "Not Allowed"}` with 405 |
| Api.UsersUpdate | gamecafe/views.py:283-296 | No role gives `({}, 204)`; an unknown id gives 404; an unknown role name raises; otherwise only that user's role changes, the table stays ordered, and the updated user is returned; nothing changes on any error |
| Api.UsersDelete | gamecafe/views.py:298-306 | An unknown id gives 404; deleting oneself gives "Cannot delete self" 405; otherwise exactly that user is removed and nothing is returned; nothing changes on any error |
| Api.OperationFor | gamecafe/views.py:142-157 | On the group route GET runs `list` and POST runs `create`; on the item route GET runs `read`, PATCH runs `update` with the body's role, DELETE runs `delete`, all with the route's key; POST on an item route has no handler |
| Api.OperationRouting | gamecafe/views.py:142-157 | Each operation is run by exactly one route and verb: a request runs an operation exactly when it is that operation's request |
| Api.Perform | gamecafe/views.py:167-306 | On a view that overrides nothing every operation is refused with "Not Allowed" 405; on UsersApi, `update` and `delete` run the overrides and every other operation is refused; only those two overrides ever change the table |
| Api.ApiDispatch | gamecafe/views.py:136-157 | A verb with no handler is refused before the gate; a refused gate gives the 404 page and no change; otherwise the operation's outcome is framed by `response` |
| Api.EditorCannotChangeRoles | gamecafe/views.py:279-283 | An editor's PATCH to the users API gets the 404 page and changes nothing |
| Api.AdminCannotDeleteSelf | gamecafe/views.py:298-306 | An administrator deleting their own account gets "Cannot delete self" with 405 and the account stays |
| Api.DefaultApiRefusesAll | gamecafe/views.py:136-185 | On an API view that overrides nothing, every admitted request with a handler is refused with 405 and changes nothing |
| Tables.GetById | gamecafe/models.py:90-92 | A found row is in the table with that id; nothing is found exactly when no row has that id |
| Tables.GetByIdFinds | gamecafe/models.py:90-92 | In an id-ordered table, looking up a row's id finds that row |
| Tables.Delete | gamecafe/models.py:84-88 | The rows left are exactly those with another id; the table does not grow and stays id-ordered |
| Tables.DeleteLookups | gamecafe/models.py:84-92 | After a delete the id is no longer found, and every other id is found as before |
| Tables.Save | gamecafe/models.py:76-82 | Saving keeps the table id-ordered; the saved row is found by its id, replacing any row with that id; all other ids are found as before |
| Tables.Serialize | gamecafe/models.py:73-74 | The dictionary has exactly the serializable names as keys, in order when they are distinct, each mapped to the attribute value |
| Tables.DefaultSerialization | gamecafe/models.py:18 | A model with the default `serializable` serialises to `{"id": id}` |
| Pagination.Window | gamecafe/models.py:58 | `OFFSET o LIMIT n` gives at most n rows, the rows from position o on, none when o is past the end, and exactly n when that many remain |
| Pagination.CeilDiv | gamecafe/models.py:63 | The page count is the least number of pages of the given size that hold all rows |
| Pagination.Paginate | gamecafe/models.py:56-71 | The page holds at most per_page rows, namely the rows at offset (page-1)*per_page onwards; the previous page exists exactly when page > 1 and the next exactly when page < page_count, numbered page-1 and page+1 |
| Pagination.EmptyTableHasNoPages | gamecafe/models.py:56-71 | An empty table has zero pages, no items and no next page |
| Pagination.EmptyExactlyBeyondLast | gamecafe/models.py:56-71 | A page is empty exactly when it lies beyond the last page, and every page before the last is full |
| Pagination.NeighbourLinks | gamecafe/models.py:68-69 | The next-page number is present exactly when the following page has rows; the previous-page number exactly when there is a page before |
| Pagination.LastPage | gamecafe/models.py:56-71 | The last page of a non-empty table has rows, has no next page and, from page 2 on, points back to the page before |
| Pagination.FirstPagesArePrefix | gamecafe/models.py:56-71 | Reading pages 1 to k in turn gives the first k*per_page rows of the table |
| Pagination.PagesCoverTable | gamecafe/models.py:56-71 | Pages 1 to page_count together give the whole table, each row once, in order |
| Pagination.PagesInIdOrder | gamecafe/models.py:58 | Every row on an earlier page has a smaller id than every row on a later page |
| Pagination.SerializePage | gamecafe/models.py:30-37 | A page serialises to an object with exactly the five keys, in the order `serialize` writes them |
| Pagination.SerializePageRoundTrip | gamecafe/models.py:22-37 | Reading a serialised page back gives the same page, with the items in their JSON form |
| Pagination.TwentyFiveRowsByTwelve | gamecafe/models.py:56-71 | 25 rows at 12 per page give three pages: page 1 has the first 12 with next 2, page 3 has the last row with previous 2 |
| Hex.ToHex | gamecafe/models.py:238 | `hex()` writes two lower-case digits per byte |
| Hex.FromHex | gamecafe/models.py:235 | `fromhex` reads at most one byte per two characters of its input |
| Hex.FromHexToHex | gamecafe/models.py:235-238 | `fromhex(b.hex()) == b` for every byte string |
| Hex.ToHexInjective | gamecafe/models.py:238 | Distinct salts have distinct hex text |
| Passwords.ValidatePassword | gamecafe/models.py:227-229 | A password is accepted exactly when it has at least 8 characters |
| Passwords.HashWithSalt | gamecafe/models.py:237-238 | The stored hash has two characters per salt byte, then one `\|`, then two characters per key byte; every character but the separator is a hex digit |
| Passwords.KeyOfStoredHash | gamecafe/models.py:237-238 | The text after the salt's hex and the separator reads back, through `fromhex`, as the derived key |
| Passwords.HashPassword | gamecafe/models.py:231-238 | No salt draws fresh bytes; a str salt is read as hex and fails exactly when it is not valid hex; bytes are used as they are |
| Passwords.CheckPassword | gamecafe/models.py:240-243 | Checking raises exactly when the stored text before the first `\|` is not hex; otherwise it answers whether hashing the candidate with that salt gives the stored text |
| Passwords.BeforeFirst | gamecafe/models.py:241 | `split("\|")[0]` is a prefix free of the separator, followed by the separator when shorter than the string |
| Passwords.SaltOfStoredHash | gamecafe/models.py:238-241 | The text before the first `\|` of a stored hash is the salt's hex |
| Passwords.CheckAgainstHash | gamecafe/models.py:240-243 | A password checks against a stored hash exactly when it derives the same key under the same salt |
| Passwords.CheckOwnPassword | gamecafe/models.py:240-243 | The password a hash was made from always checks |
| Passwords.FreshSaltLayout | gamecafe/models.py:231-238 | A fresh 32-byte salt gives 64 hex digits followed by `\|` |
| Accounts.SetPassword | gamecafe/models.py:203-207 | A short password raises PasswordException; otherwise only the hash changes, and the new password checks against it |
| Accounts.NewUser | gamecafe/models.py:219-225 | A new user keeps the email and username given, takes the role given or USER, and their password checks; a short password raises |
| Accounts.SerializeUser | gamecafe/models.py:73-74 | A serialised user is an object whose keys are `serializable`, each once and in order |
| Accounts.SerializedUser | gamecafe/models.py:209 | A user serialises to exactly username, email and role (its display string), in that order, never the password hash |
| Enums.RankOrderIsTotal | gamecafe/models.py:187-190 | The intended role order is a total order with USER < EDITOR < ADMIN |
| Enums.RoleToString | gamecafe/models.py:186-193 | `str(role)` is "User", "Editor" or "Admin" |
| Enums.TagTypeToString | gamecafe/models.py:142-147 | `str(tag_type)` is "Category" or "Mechanic" |
| Enums.CapitalizeKeepsLookup | gamecafe/views.py:292 | Upper-casing a capitalised text gives what upper-casing the text itself gives, so a display string looks a role up as its value does |
| Enums.RoleByName | gamecafe/views.py:292 | `Role[name.upper()]` finds the role whose member name is the upper-cased text, and raises exactly when there is none |
| Enums.RoleNameRoundTrip | gamecafe/models.py:187-196 | Looking up a role by its value or by its display string gives back that role |

## Left out

- Flask itself is not modelled: templates, `redirect`, `flash`, sessions, `as_view` and `jsonify` serialisation. A rendered 404 page is the `NotFoundPage` reply, and a page view's result is the `Page` it would render.
- Key order: the JSON provider (gamecafe/model_json_provider.py:6) extends Flask's `DefaultJSONProvider`, whose `sort_keys` is true, so the client receives keys in sorted order. A `JObject` keeps the Python dict's insertion order, so the key-order statements of `Api.Envelope`, `Pagination.SerializePage`, `Accounts.SerializeUser` and `Accounts.SerializedUser` are about the dict the code builds, not the text sent.
- Access.Dispatch, GameCafe.ShowList and Api.ApiDispatch use the rank-order gate `Access.UserAllowed` (USER < EDITOR < ADMIN). As written (views.py:32), a logged-in request to a view with a MINIMUM_ROLE (Users, UsersApi, NewCollection, EditCollection, ReportsView) raises TypeError, as `Access.UserAllowedAsWritten` shows, so the rows for these members and for `GameCafe.EditorAndAdmin`, `Api.EditorCannotChangeRoles` and `Api.AdminCannotDeleteSelf` describe the intended program (see "## Findings").
- `get_user()` and the session are a parameter, the logged-in user's row or None. `user is get_user()` is modelled as equal ids, as SQLAlchemy's identity map guarantees.
- `pbkdf2_hmac` is an uninterpreted function parameter, and so is the `urandom(32)` draw. `password.encode("utf-8")` is folded into that function.
- `paginate` reads the slice and `count()` in two separate queries (models.py:58-62). `Pagination.Paginate` takes both from one table, so the disagreement a concurrent write between the two queries can cause is not modelled.
- `UsersApi.update` reads `request.json` (views.py:286), which raises for a body that is not JSON. The model receives the body's `role` already parsed, as `Option<string>`.
- Query arguments arrive as already parsed integers. The ValueError `int()` raises on non-numeric text is not modelled.
- Access.PageNum: models `max(p, 1)` on an integer argument, not the parsing of the query string.
- `float` division in `ceil(item_count / per_page)` is modelled as exact integer ceiling division. The two agree for counts below 2^53; above that the float quotient can round (`ceil((2**53 + 1) / 1)` is `2**53`), which the model does not reproduce.
- Pagination.Paginate: the OFFSET `(page - 1) * per_page` is an unbounded integer. The database stores 64-bit integers, so an offset of 2^63 or more (for example `?p=1000000000000000000` on the games page) makes the driver raise OverflowError, while the model returns an empty page.
- Pagination.Paginate: requires page >= 1 and per_page >= 1. Every caller passes `page_num()`, which is at least 1, and a page size of at least 1. per_page 0 would divide by zero.
- GamesApi is not modelled: no `ApiKind` stands for it, and `DefaultApi` is not a model of it. Its `list` (views.py:410-418) first evaluates `page_num()` and `per_page()`, which can raise ValueError, and then passes `stmt=` to `paginate`, which does not accept it, so GET /api/games raises TypeError (an `Unhandled` reply) whenever the query arguments parse.
- The other page views (Home, Login, Logout, Register, NewCollection, ViewCollection, EditCollection, GameImage, ReportForm) appear only as classes in the hierarchy. Their form handling and rendering are not modelled.
- Enums.UpperAll: models `str.upper` only as far as looking up the three member names needs. ASCII letters and the two characters that upper-case onto ASCII letters are mapped; other characters, including the multi-character expansions of `upper`, are left unmapped.
- Enums.Capitalize: ASCII letters only. Its contract only restates the definition; the property it is used for is `Enums.CapitalizeKeepsLookup`.
- A non-string `role` in a PATCH body (AttributeError on `.upper()`) is not modelled. The key of an item route is an integer; string keys that SQLAlchemy would coerce are not modelled.
- `session.py`, `board_game_geek.py`, `commands.py`, `config.py`, the alembic migrations and the JavaScript front end are not part of this model.

## Findings

| source | as written | input that shows it | evidently intended | confidence | as-written member | corrected member |
|---|---|---|---|---|---|---|
| gamecafe/views.py:32 | `user.role < cls.MINIMUM_ROLE` compares two members of a plain `Enum`, which defines no ordering, so Python raises TypeError | a logged-in ADMIN opening `/users` (MINIMUM_ROLE = ADMIN) | roles compared by rank USER < EDITOR < ADMIN, so users below the minimum get the 404 page and the rest are admitted | not executed | Access.UserAllowedAsWritten | Access.UserAllowed |
