/**
 * `RoleView`'s per-request rules: who may reach a view, how the page-number
 * and page-size query parameters are clamped, and the gate in front of every
 * verb handler.
 */
module Access {
  import opened Wrappers
  import opened Enums

  /** A view's class attributes `AUTHENTICATED` and `MINIMUM_ROLE`. */
  datatype Gate = Gate(authenticated: bool, minimumRole: Option<Role>)

  /**
   * `user_allowed`, with `current` the role of the user `get_user()` returns
   * (None when nobody is logged in) and roles compared by rank.
   */
  function UserAllowed(gate: Gate, current: Option<Role>): (allowed: bool)
    ensures !gate.authenticated && gate.minimumRole.None? ==> allowed
    ensures (gate.authenticated || gate.minimumRole.Some?) && current.None? ==> !allowed
    ensures gate.minimumRole.None? && current.Some? ==> allowed
    ensures gate.minimumRole.Some? && current.Some? ==>
              (allowed <==> AtLeast(current.value, gate.minimumRole.value))
  {
    if (gate.authenticated || gate.minimumRole.Some?) && current.None? then false
    else if gate.minimumRole.Some? && Rank(current.value) < Rank(gate.minimumRole.value) then false
    else true
  }

  /** Raising a user's role never takes away access. */
  lemma AllowedIsMonotone(gate: Gate, r: Role, r': Role)
    requires UserAllowed(gate, Some(r)) && AtLeast(r', r)
    ensures UserAllowed(gate, Some(r'))
  {
  }

  /** A USER minimum admits every role; an ADMIN minimum admits only ADMIN. */
  lemma MinimumRoleExamples(authenticated: bool, r: Role)
    ensures UserAllowed(Gate(authenticated, Some(Role.User)), Some(r))
    ensures UserAllowed(Gate(authenticated, Some(Admin)), Some(r)) <==> r == Admin
    ensures UserAllowed(Gate(authenticated, Some(Editor)), Some(r)) <==> r != Role.User
  {
  }

  /**
   * `user_allowed` exactly as written: `User.Role` is a plain `Enum`, which
   * defines no `<`, so the comparison raises TypeError (Failure here) whenever
   * a minimum role is set and a user is logged in.
   */
  function UserAllowedAsWritten(gate: Gate, current: Option<Role>): (r: Result<bool, string>)
    ensures gate.minimumRole.Some? && current.Some? <==> r.Failure?
    ensures r.Success? ==> r.value == UserAllowed(gate, current)
  {
    if (gate.authenticated || gate.minimumRole.Some?) && current.None? then Success(false)
    else if gate.minimumRole.Some? then Failure("TypeError")
    else Success(true)
  }

  /**
   * As written, even an administrator cannot open an ADMIN-only view such as
   * `Users`: the role comparison raises before access is granted.
   */
  lemma AsWrittenLocksOutAdmin()
    ensures UserAllowedAsWritten(Gate(false, Some(Admin)), Some(Admin)) == Failure("TypeError")
    ensures UserAllowed(Gate(false, Some(Admin)), Some(Admin))
  {
  }

  /** `page_num`: the `p` query parameter, default 1, never below 1. */
  function PageNum(p: Option<int>): (n: int)
    ensures n >= 1
    ensures p.None? ==> n == 1
    ensures p.Some? && p.value >= 1 ==> n == p.value
    ensures p.Some? && p.value < 1 ==> n == 1
  {
    var v := p.GetOr(1);
    if v >= 1 then v else 1
  }

  /** The default page size of `per_page`. */
  const DefaultPerPage: int := 12

  /** The largest page size `per_page` allows. */
  const MaxPerPage: int := 50

  /**
   * `per_page(default)`: the `per_page` query parameter, or `default` when it
   * is absent, kept within 1 to 50 (the default is clamped too).
   */
  function PerPage(arg: Option<int>, default: int): (n: int)
    ensures 1 <= n <= MaxPerPage
    ensures arg.None? && 1 <= default <= MaxPerPage ==> n == default
    ensures arg.Some? && 1 <= arg.value <= MaxPerPage ==> n == arg.value
    ensures arg.Some? && arg.value < 1 ==> n == 1
    ensures arg.Some? && arg.value > MaxPerPage ==> n == MaxPerPage
  {
    var v := arg.GetOr(default);
    var atLeastOne := if v >= 1 then v else 1;
    if atLeastOne <= MaxPerPage then atLeastOne else MaxPerPage
  }

  /** Feeding a clamped value back in leaves it unchanged. */
  lemma ClampingIsIdempotent(p: Option<int>, arg: Option<int>)
    ensures PageNum(Some(PageNum(p))) == PageNum(p)
    ensures PerPage(Some(PerPage(arg, DefaultPerPage)), DefaultPerPage) == PerPage(arg, DefaultPerPage)
    ensures PerPage(None, DefaultPerPage) == 12
  {
  }

  /**
   * `dispatch_request` of `RoleView` and of `ApiCommon`: when the gate
   * refuses, the 404 page is the response and the handler never runs, so the
   * application state is untouched; otherwise the handler runs.
   */
  function Dispatch<S, R>(gate: Gate, current: Option<Role>, handler: S -> (R, S),
                          notFound: R, state: S): (r: (R, S))
    ensures !UserAllowed(gate, current) ==> r == (notFound, state)
    ensures UserAllowed(gate, current) ==> r == handler(state)
  {
    if !UserAllowed(gate, current) then (notFound, state) else handler(state)
  }
}
