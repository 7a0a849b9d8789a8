/**
 * The view classes of the game café application, as `views.py` defines
 * them, and what registering them and serving their list pages does.
 */
module GameCafe {
  import opened Wrappers
  import opened Enums
  import opened Access
  import opened Registry
  import opened Tables
  import opened Pagination
  import opened Seqs
  import Api

  const Open: Gate := Gate(false, None)
  const EditorsOnly: Gate := Gate(false, Some(Editor))
  const AdminsOnly: Gate := Gate(false, Some(Admin))

  /** Indices of the classes, in definition order. */
  const RoleViewIx: nat := 0
  const LoginIx: nat := 5
  const RegisterIx: nat := 7
  const ViewCollectionIx: nat := 13
  const EditCollectionIx: nat := 14

  /** The view classes of `views.py` with their subclasses, in definition order. */
  const Views: Hierarchy := [
    ViewClass("RoleView", None, ViewRegistrar, Open, [1, 3, 16]),
    ViewClass("PageView", None, ViewRegistrar, Open, [2, 4, 6, 8, 10, 11, 13, 18]),
    ViewClass("FormView", None, ViewRegistrar, Open, [5, 12, 14, 17]),
    ViewClass("ApiView", None, ApiRegistrar, Open, [9, 15]),
    ViewClass("Home", Some("/"), ViewRegistrar, Open, []),
    ViewClass("Login", Some("/login"), ViewRegistrar, Open, [7]),
    ViewClass("Logout", Some("/logout"), ViewRegistrar, Open, []),
    ViewClass("Register", Some("/register"), ViewRegistrar, Open, []),
    ViewClass("Users", Some("/users"), ViewRegistrar, AdminsOnly, []),
    ViewClass("UsersApi", Some("/api/users"), ApiRegistrar, AdminsOnly, []),
    ViewClass("GamesView", Some("/games"), ViewRegistrar, Open, []),
    ViewClass("ListCollections", Some("/collections"), ViewRegistrar, Open, []),
    ViewClass("NewCollection", Some("/collections/new"), ViewRegistrar, EditorsOnly, []),
    ViewClass("ViewCollection", Some("/collections/<int:collection_id>"), ViewRegistrar, Open, [14]),
    ViewClass("EditCollection", Some("/collections/<int:collection_id>/edit"), ViewRegistrar, EditorsOnly, []),
    ViewClass("GamesApi", Some("/api/games"), ApiRegistrar, Open, []),
    ViewClass("GameImage", Some("/games/<int:game_id>/image"), ViewRegistrar, Open, []),
    ViewClass("ReportForm", Some("/report"), ViewRegistrar, Open, []),
    ViewClass("ReportsView", Some("/reports"), ViewRegistrar, EditorsOnly, [])
  ]

  lemma ViewsWellFormed()
    ensures WellFormed(Views)
  {
  }

  /** The walk of a class without subclasses is empty. */
  lemma LeafWalk(h: Hierarchy, c: nat)
    requires WellFormed(h) && c < |h| && h[c].subclasses == []
    ensures Subviews(h, c) == []
  {
  }

  /** One step of the walk over the direct subclasses of `c`, at subclass `s` with walk `sw`. */
  lemma WalkStep(h: Hierarchy, c: nat, i: nat, s: nat, sw: seq<nat>, tail: seq<nat>)
    requires WellFormed(h) && c < |h| && i < |h[c].subclasses| && h[c].subclasses[i] == s
    requires s < |h| && Subviews(h, s) == sw
    requires SubviewsFrom(h, c, i + 1) == tail
    ensures SubviewsFrom(h, c, i) == sw + [s] + tail
  {
  }

  /** The same step at a subclass with no subclasses of its own. */
  lemma LeafStep(h: Hierarchy, c: nat, i: nat, s: nat, tail: seq<nat>)
    requires WellFormed(h) && c < |h| && i < |h[c].subclasses| && h[c].subclasses[i] == s
    requires s < |h| && h[s].subclasses == []
    requires SubviewsFrom(h, c, i + 1) == tail
    ensures SubviewsFrom(h, c, i) == [s] + tail
  {
    LeafWalk(h, s);
  }

  lemma WalkEnd(h: Hierarchy, c: nat)
    requires WellFormed(h) && c < |h|
    ensures SubviewsFrom(h, c, |h[c].subclasses|) == []
  {
  }

  lemma LoginWalk()
    ensures WellFormed(Views)
    ensures Subviews(Views, 5) == [7]
  {
    ViewsWellFormed();
    var h := Views;
    assert h[5].subclasses == [7];
    WalkEnd(h, 5);
    LeafStep(h, 5, 0, 7, []);
  }

  lemma ViewCollectionWalk()
    ensures WellFormed(Views)
    ensures Subviews(Views, 13) == [14]
  {
    ViewsWellFormed();
    var h := Views;
    assert h[13].subclasses == [14];
    WalkEnd(h, 13);
    LeafStep(h, 13, 0, 14, []);
  }

  lemma ApiViewWalk()
    ensures WellFormed(Views)
    ensures Subviews(Views, 3) == [9, 15]
  {
    ViewsWellFormed();
    var h := Views;
    assert h[3].subclasses == [9, 15];
    WalkEnd(h, 3);
    LeafStep(h, 3, 1, 15, []);
    LeafStep(h, 3, 0, 9, [15]);
  }

  lemma FormViewWalk()
    ensures WellFormed(Views)
    ensures Subviews(Views, 2) == [7, 5, 12, 14, 17]
  {
    LoginWalk();
    var h := Views;
    assert h[2].subclasses == [5, 12, 14, 17];
    WalkEnd(h, 2);
    LeafStep(h, 2, 3, 17, []);
    LeafStep(h, 2, 2, 14, [17]);
    LeafStep(h, 2, 1, 12, [14, 17]);
    WalkStep(h, 2, 0, 5, [7], [12, 14, 17]);
  }

  /** The last four subclasses of PageView. */
  lemma PageViewTailShape(h: Hierarchy)
    requires WellFormed(h) && |h| == 19
    requires h[1].subclasses == [2, 4, 6, 8, 10, 11, 13, 18]
    requires h[10].subclasses == [] && h[11].subclasses == [] && h[18].subclasses == []
    requires Subviews(h, 13) == [14]
    ensures SubviewsFrom(h, 1, 4) == [10, 11, 14, 13, 18]
  {
    WalkEnd(h, 1);
    LeafStep(h, 1, 7, 18, []);
    WalkStep(h, 1, 6, 13, [14], [18]);
    LeafStep(h, 1, 5, 11, [14, 13, 18]);
    LeafStep(h, 1, 4, 10, [11, 14, 13, 18]);
  }

  /** The PageView step of the walk, for any hierarchy with PageView's shape. */
  lemma PageViewShape(h: Hierarchy)
    requires WellFormed(h) && |h| == 19
    requires h[1].subclasses == [2, 4, 6, 8, 10, 11, 13, 18]
    requires h[4].subclasses == [] && h[6].subclasses == [] && h[8].subclasses == []
    requires h[10].subclasses == [] && h[11].subclasses == [] && h[18].subclasses == []
    requires Subviews(h, 2) == [7, 5, 12, 14, 17] && Subviews(h, 13) == [14]
    ensures Subviews(h, 1) == [7, 5, 12, 14, 17, 2, 4, 6, 8, 10, 11, 14, 13, 18]
  {
    PageViewTailShape(h);
    LeafStep(h, 1, 3, 8, [10, 11, 14, 13, 18]);
    LeafStep(h, 1, 2, 6, [8, 10, 11, 14, 13, 18]);
    LeafStep(h, 1, 1, 4, [6, 8, 10, 11, 14, 13, 18]);
    WalkStep(h, 1, 0, 2, [7, 5, 12, 14, 17], [4, 6, 8, 10, 11, 14, 13, 18]);
  }

  lemma PageViewWalk()
    ensures WellFormed(Views)
    ensures Subviews(Views, 1) == [7, 5, 12, 14, 17, 2, 4, 6, 8, 10, 11, 14, 13, 18]
  {
    FormViewWalk();
    ViewCollectionWalk();
    PageViewShape(Views);
  }

  /** The RoleView step of the walk, for any hierarchy with RoleView's shape. */
  lemma RoleViewShape(h: Hierarchy)
    requires WellFormed(h) && |h| == 19
    requires h[0].subclasses == [1, 3, 16] && h[16].subclasses == []
    requires Subviews(h, 1) == [7, 5, 12, 14, 17, 2, 4, 6, 8, 10, 11, 14, 13, 18]
    requires Subviews(h, 3) == [9, 15]
    ensures Subviews(h, 0) == [7, 5, 12, 14, 17, 2, 4, 6, 8, 10, 11, 14, 13, 18, 1, 9, 15, 3, 16]
  {
    WalkEnd(h, 0);
    LeafStep(h, 0, 2, 16, []);
    WalkStep(h, 0, 1, 3, [9, 15], [16]);
    WalkStep(h, 0, 0, 1, [7, 5, 12, 14, 17, 2, 4, 6, 8, 10, 11, 14, 13, 18], [9, 15, 3, 16]);
  }

  /** The walk from `RoleView`: EditCollection, a subclass of both FormView and ViewCollection, is met twice. */
  lemma {:induction false} WalkFromRoleView()
    ensures WellFormed(Views)
    ensures Subviews(Views, RoleViewIx) ==
      [7, 5, 12, 14, 17, 2, 4, 6, 8, 10, 11, 14, 13, 18, 1, 9, 15, 3, 16]
  {
    PageViewWalk();
    ApiViewWalk();
    RoleViewShape(Views);
  }

  /** Only the abstract bases 0 to 3 have no route. */
  lemma RoutedClasses(x: nat)
    requires x < |Views|
    ensures Views[x].route.Some? <==> 4 <= x
  {
  }

  /** The transitive subclasses of `RoleView` are all the other classes. */
  lemma {:induction false} DescendantsOfRoleView(x: nat)
    ensures WellFormed(Views)
    ensures Descends(Views, RoleViewIx, x) <==> 1 <= x < |Views|
  {
    WalkFromRoleView();
    var w := Subviews(Views, RoleViewIx);
    assert x in w <==> 1 <= x < |Views|;
    SubviewsAreDescendants(Views, RoleViewIx, x);
  }

  /** Register is a subclass of Login, EditCollection one of ViewCollection. */
  lemma {:induction false} DiamondEdges()
    ensures Descends(Views, LoginIx, RegisterIx) && Descends(Views, ViewCollectionIx, EditCollectionIx)
  {
    var p, q := [LoginIx, RegisterIx], [ViewCollectionIx, EditCollectionIx];
    assert Edge(Views, p[0], p[1]);
    assert Chain(Views, p);
    assert Edge(Views, q[0], q[1]);
    assert Chain(Views, q);
  }

  /** The routed classes of `Views` differ in name and route. */
  lemma ViewNamesDistinct()
    ensures forall c, d :: 4 <= c < d < |Views| ==>
              Views[c].name != Views[d].name && Views[c].route.value != Views[d].route.value
  {
  }

  /** No class is named like an endpoint of UsersApi or GamesApi. */
  lemma ViewNamesNotEndpoints()
    ensures forall c, d ::
              4 <= c < |Views| && 4 <= d < |Views| && Views[d].registrar.ApiRegistrar? ==>
              Views[c].name != Views[d].name + "-group" && Views[c].name != Views[d].name + "-items"
  {
    assert forall d :: 4 <= d < |Views| && Views[d].registrar.ApiRegistrar? ==> d == 9 || d == 15;
    assert Views[9].name + "-group" == "UsersApi-group" && Views[9].name + "-items" == "UsersApi-items";
    assert Views[15].name + "-group" == "GamesApi-group" && Views[15].name + "-items" == "GamesApi-items";
  }

  /** No route ends with the item suffix. */
  lemma ViewRoutesKeyFree()
    ensures forall c :: 4 <= c < |Views| ==> !EndsWithKey(Views[c].route.value)
  {
  }

  lemma ViewsNamesApart()
    ensures NamesApart(Views)
  {
    ViewNamesDistinct();
    ViewNamesNotEndpoints();
    ViewRoutesKeyFree();
    forall c | 0 <= c < |Views| && Views[c].route.Some?
      ensures 4 <= c
    {
      RoutedClasses(c);
    }
  }

  /**
   * Registering every subview of `RoleView`: each concrete view, 4 to 18,
   * is registered exactly once (EditCollection too, though the walk meets it
   * twice), and a subclass before its superclass. No two of the rules added
   * share an endpoint name or a URL pattern, so Flask accepts them all.
   */
  method RegisterViews() returns (routed: seq<nat>, rules: seq<Rule>)
    ensures forall x: nat :: x in routed <==> 4 <= x < |Views|
    ensures Distinct(routed)
    ensures forall i, j ::
              0 <= i < |routed| && 0 <= j < |routed| && routed[i] == LoginIx && routed[j] == RegisterIx ==> j < i
    ensures forall i, j ::
              && 0 <= i < |routed| && 0 <= j < |routed|
              && routed[i] == ViewCollectionIx && routed[j] == EditCollectionIx
              ==> j < i
    ensures Routable(Views, routed) && rules == RulesOf(Views, routed)
    ensures forall r :: r in rules ==> r.target.cls in routed
    ensures forall i, j :: 0 <= i < j < |rules| ==>
              rules[i].endpoint != rules[j].endpoint && rules[i].pattern != rules[j].pattern
  {
    ViewsWellFormed();
    var seen;
    seen, routed, rules := RegisterAll(Views, RoleViewIx);
    forall x: nat ensures x in routed <==> 4 <= x < |Views| {
      DescendantsOfRoleView(x);
      if x < |Views| {
        RoutedClasses(x);
      }
    }
    DiamondEdges();
    ViewsNamesApart();
    RulesOfApart(Views, routed);
  }

  /** The views that list one page of a table. */
  datatype ListView = UsersPage | GamesPage | CollectionsPage | ReportsPage

  /** Where each list view sits in `Views`. */
  function ClassOf(v: ListView): nat {
    match v
    case UsersPage => 8
    case GamesPage => 10
    case CollectionsPage => 11
    case ReportsPage => 18
  }

  function GateOf(v: ListView): Gate {
    match v
    case UsersPage => AdminsOnly
    case ReportsPage => EditorsOnly
    case _ => Open
  }

  /**
   * The page size each list view passes to `paginate`: fixed for users,
   * games and reports, the clamped `per_page` argument for collections.
   */
  function PageSize(v: ListView, perPageArg: Option<int>): (n: int)
    ensures 1 <= n <= MaxPerPage
    ensures v == UsersPage ==> n == 10
    ensures v == GamesPage ==> n == 12
    ensures v == ReportsPage ==> n == 15
    ensures v == CollectionsPage ==> n == PerPage(perPageArg, DefaultPerPage)
  {
    match v
    case UsersPage => 10
    case GamesPage => 12
    case CollectionsPage => PerPage(perPageArg, DefaultPerPage)
    case ReportsPage => 15
  }

  /**
   * A GET of a list view: behind the access gate, one page of the table
   * (rows in id order) at the page the query asks for. None is the 404 page.
   */
  function ShowList<T>(v: ListView, t: seq<Row<T>>, current: Option<Role>,
                       pageArg: Option<int>, perPageArg: Option<int>): (r: Option<Page<Row<T>>>)
    ensures r.None? <==> !UserAllowed(GateOf(v), current)
    ensures r.Some? ==> r.value == Paginate(t, PageNum(pageArg), PageSize(v, perPageArg))
    ensures r.Some? ==> r.value.currentPage == PageNum(pageArg)
    ensures r.Some? ==> |r.value.items| <= PageSize(v, perPageArg)
    ensures r.Some? ==> forall i :: 0 <= i < |r.value.items| ==> r.value.items[i] in t
    ensures r.Some? && IdOrdered(t) ==> IdOrdered(r.value.items)
  {
    var size := PageSize(v, perPageArg);
    var handler := (table: seq<Row<T>>) => (Some(Paginate(table, PageNum(pageArg), size)), table);
    Dispatch(GateOf(v), current, handler, None, t).0
  }

  /** The list views carry the gates their classes declare. */
  lemma GatesAgree(v: ListView)
    ensures ClassOf(v) < |Views| && Views[ClassOf(v)].gate == GateOf(v)
    ensures Views[ClassOf(v)].route.Some?
  {
  }

  /** `Api.UsersApiGate` is the gate of the UsersApi class, an API view. */
  lemma UsersApiAgrees()
    ensures Views[9].name == "UsersApi" && Views[9].gate == Api.UsersApiGate
    ensures Views[9].registrar.ApiRegistrar? && Views[9].route == Some("/api/users")
  {
  }

  /** Anonymous visitors see games and collections but not users or reports. */
  lemma AnonymousVisitor<T>(t: seq<Row<T>>, pageArg: Option<int>, perPageArg: Option<int>)
    ensures ShowList(GamesPage, t, None, pageArg, perPageArg).Some?
    ensures ShowList(CollectionsPage, t, None, pageArg, perPageArg).Some?
    ensures ShowList(UsersPage, t, None, pageArg, perPageArg).None?
    ensures ShowList(ReportsPage, t, None, pageArg, perPageArg).None?
  {
  }

  /** An editor sees reports but not the user list; an admin sees both. */
  lemma EditorAndAdmin<T>(t: seq<Row<T>>, pageArg: Option<int>, perPageArg: Option<int>)
    ensures ShowList(ReportsPage, t, Some(Editor), pageArg, perPageArg).Some?
    ensures ShowList(UsersPage, t, Some(Editor), pageArg, perPageArg).None?
    ensures ShowList(UsersPage, t, Some(Admin), pageArg, perPageArg).Some?
  {
  }
}
