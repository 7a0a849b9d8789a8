/**
 * Route registration by subclass discovery: `_get_subviews` walks the
 * subclass graph of a view class, `register_all_subviews` registers every
 * class it meets once, and `_register` adds the URL rules of one class.
 */
module Registry {
  import opened Wrappers
  import opened Access
  import opened Seqs

  /** Which `_register` a class inherits: `RoleView`'s or `ApiView`'s. */
  datatype Registrar = ViewRegistrar | ApiRegistrar

  /**
   * A view class: its `__name__`, its `ROUTE` (None for an abstract class),
   * its `_register`, its access attributes, and its direct subclasses in the
   * order `__subclasses__()` lists them.
   */
  datatype ViewClass = ViewClass(
    name: string,
    route: Option<string>,
    registrar: Registrar,
    gate: Gate,
    subclasses: seq<nat>)

  /**
   * The view classes, indexed in definition order. A class can only subclass
   * classes defined before it, so every subclass has a larger index.
   */
  type Hierarchy = seq<ViewClass>

  predicate WellFormed(h: Hierarchy) {
    forall c, j :: 0 <= c < |h| && 0 <= j < |h[c].subclasses| ==>
      c < h[c].subclasses[j] < |h|
  }

  /**
   * `_get_subviews` of class `c`: for each direct subclass in turn, that
   * subclass's own walk and then the subclass itself. A class reachable
   * along several paths is yielded once per path.
   */
  function Subviews(h: Hierarchy, c: nat): (w: seq<nat>)
    requires WellFormed(h) && c < |h|
    ensures forall x :: x in w ==> c < x < |h|
    decreases |h| - c, |h[c].subclasses| + 1
  {
    SubviewsFrom(h, c, 0)
  }

  /** The part of the walk of `c` that starts at its `i`-th direct subclass. */
  function SubviewsFrom(h: Hierarchy, c: nat, i: nat): (w: seq<nat>)
    requires WellFormed(h) && c < |h| && i <= |h[c].subclasses|
    ensures forall x :: x in w ==> c < x < |h|
    decreases |h| - c, |h[c].subclasses| - i
  {
    if i == |h[c].subclasses| then []
    else
      var s := h[c].subclasses[i];
      Subviews(h, s) + [s] + SubviewsFrom(h, c, i + 1)
  }

  /** `d` is a direct subclass of `c`. */
  ghost predicate Edge(h: Hierarchy, c: nat, d: nat) {
    c < |h| && d in h[c].subclasses
  }

  /** A path of at least one subclass step. */
  ghost predicate Chain(h: Hierarchy, p: seq<nat>) {
    |p| >= 2 && forall k :: 0 <= k < |p| - 1 ==> Edge(h, p[k], p[k + 1])
  }

  /** `d` is a transitive (strict) subclass of `c`. */
  ghost predicate Descends(h: Hierarchy, c: nat, d: nat) {
    exists p :: Chain(h, p) && p[0] == c && p[|p| - 1] == d
  }

  /** What the walk from the `i`-th subclass on contains. */
  lemma {:induction false} SubviewsFromMembers(h: Hierarchy, c: nat, i: nat, x: nat)
    requires WellFormed(h) && c < |h| && i <= |h[c].subclasses|
    ensures x in SubviewsFrom(h, c, i) <==>
      exists k :: i <= k < |h[c].subclasses| &&
        (x == h[c].subclasses[k] || x in Subviews(h, h[c].subclasses[k]))
    decreases |h[c].subclasses| - i
  {
    var n := |h[c].subclasses|;
    if i < n {
      SubviewsFromMembers(h, c, i + 1, x);
      var s := h[c].subclasses[i];
      var rest := SubviewsFrom(h, c, i + 1);
      assert SubviewsFrom(h, c, i) == Subviews(h, s) + [s] + rest;
      if x == s || x in Subviews(h, s) {
        assert i <= i < n && (x == h[c].subclasses[i] || x in Subviews(h, h[c].subclasses[i]));
      } else if x in rest {
        var k :| i + 1 <= k < n && (x == h[c].subclasses[k] || x in Subviews(h, h[c].subclasses[k]));
        assert i <= k < n;
      }
    }
  }

  /** Everything the walk yields is a transitive subclass. */
  lemma {:induction false} WalkYieldsDescendants(h: Hierarchy, c: nat, d: nat)
    requires WellFormed(h) && c < |h| && d in Subviews(h, c)
    ensures Descends(h, c, d)
    decreases |h| - c
  {
    SubviewsFromMembers(h, c, 0, d);
    var k :| 0 <= k < |h[c].subclasses| &&
      (d == h[c].subclasses[k] || d in Subviews(h, h[c].subclasses[k]));
    var s := h[c].subclasses[k];
    if d == s {
      var p := [c, s];
      assert Edge(h, p[0], p[1]);
      assert Chain(h, p);
    } else {
      WalkYieldsDescendants(h, s, d);
      var q :| Chain(h, q) && q[0] == s && q[|q| - 1] == d;
      var p := [c] + q;
      assert Edge(h, p[0], p[1]);
      forall m | 0 < m < |p| - 1
        ensures Edge(h, p[m], p[m + 1])
      {
        assert p[m] == q[m - 1] && p[m + 1] == q[m];
      }
      assert Chain(h, p);
    }
  }

  /** Every transitive subclass is yielded by the walk. */
  lemma {:induction false} DescendantsAreWalked(h: Hierarchy, p: seq<nat>)
    requires WellFormed(h) && Chain(h, p) && p[0] < |h|
    ensures p[|p| - 1] in Subviews(h, p[0])
    decreases |p|
  {
    var c := p[0];
    var s := p[1];
    assert Edge(h, p[0], p[1]);
    var k :| 0 <= k < |h[c].subclasses| && h[c].subclasses[k] == s;
    if |p| > 2 {
      var q := p[1..];
      forall m | 0 <= m < |q| - 1
        ensures Edge(h, q[m], q[m + 1])
      {
        assert Edge(h, p[m + 1], p[m + 2]);
      }
      DescendantsAreWalked(h, q);
    }
    SubviewsFromMembers(h, c, 0, p[|p| - 1]);
  }

  /** The walk yields exactly the transitive subclasses, never the root itself. */
  lemma SubviewsAreDescendants(h: Hierarchy, c: nat, d: nat)
    requires WellFormed(h) && c < |h|
    ensures d in Subviews(h, c) <==> Descends(h, c, d)
    ensures c !in Subviews(h, c)
  {
    if d in Subviews(h, c) {
      WalkYieldsDescendants(h, c, d);
    }
    if Descends(h, c, d) {
      var p :| Chain(h, p) && p[0] == c && p[|p| - 1] == d;
      DescendantsAreWalked(h, p);
    }
  }

  /** Post-order: whenever a class occurs, all of its subclasses occurred before. */
  ghost predicate ChildrenFirst(h: Hierarchy, w: seq<nat>)
    requires WellFormed(h)
  {
    && (forall i :: 0 <= i < |w| ==> w[i] < |h|)
    && (forall i, d :: 0 <= i < |w| && d in Subviews(h, w[i]) ==> d in w[..i])
  }

  lemma ChildrenFirstAppend(h: Hierarchy, a: seq<nat>, b: seq<nat>)
    requires WellFormed(h) && ChildrenFirst(h, a) && ChildrenFirst(h, b)
    ensures ChildrenFirst(h, a + b)
  {
    var w := a + b;
    forall i, d | 0 <= i < |w| && d in Subviews(h, w[i])
      ensures d in w[..i]
    {
      if i < |a| {
        assert w[i] == a[i] && d in a[..i];
        assert a[..i] == w[..i];
      } else {
        assert w[i] == b[i - |a|] && d in b[..i - |a|];
        assert w[..i] == a + b[..i - |a|];
      }
    }
  }

  lemma ChildrenFirstThenSelf(h: Hierarchy, s: nat)
    requires WellFormed(h) && s < |h| && ChildrenFirst(h, Subviews(h, s))
    ensures ChildrenFirst(h, Subviews(h, s) + [s])
  {
    var a := Subviews(h, s);
    var w := a + [s];
    forall i, d | 0 <= i < |w| && d in Subviews(h, w[i])
      ensures d in w[..i]
    {
      if i < |a| {
        assert w[i] == a[i] && d in a[..i];
        assert a[..i] == w[..i];
      } else {
        assert w[..i] == a;
      }
    }
  }

  /** The walk `_get_subviews` performs is a post-order. */
  lemma {:induction false} WalkIsPostOrder(h: Hierarchy, c: nat)
    requires WellFormed(h) && c < |h|
    ensures ChildrenFirst(h, Subviews(h, c))
    decreases |h| - c, |h[c].subclasses| + 1
  {
    WalkFromIsPostOrder(h, c, 0);
  }

  lemma {:induction false} WalkFromIsPostOrder(h: Hierarchy, c: nat, i: nat)
    requires WellFormed(h) && c < |h| && i <= |h[c].subclasses|
    ensures ChildrenFirst(h, SubviewsFrom(h, c, i))
    decreases |h| - c, |h[c].subclasses| - i
  {
    if i < |h[c].subclasses| {
      var s := h[c].subclasses[i];
      WalkIsPostOrder(h, s);
      ChildrenFirstThenSelf(h, s);
      WalkFromIsPostOrder(h, c, i + 1);
      ChildrenFirstAppend(h, Subviews(h, s) + [s], SubviewsFrom(h, c, i + 1));
    }
  }

  /** What a URL rule dispatches to. */
  datatype Target = PageTarget(cls: nat) | GroupTarget(cls: nat) | ItemTarget(cls: nat)

  /** One `app.add_url_rule(pattern, view_func=...)`, with the view's endpoint name. */
  datatype Rule = Rule(pattern: string, endpoint: string, target: Target)

  /** The item route of an API view. */
  function ItemPattern(route: string): string {
    route + "/<key>"
  }

  /**
   * The `_register` of class `c`: `RoleView._register` adds one rule at the
   * class's route, `ApiView._register` adds the group view at the route and
   * the item view at route + "/<key>".
   */
  function ClassRules(h: Hierarchy, c: nat): (rules: seq<Rule>)
    requires c < |h| && h[c].route.Some?
    ensures forall r :: r in rules ==> r.target.cls == c
    ensures h[c].registrar.ViewRegistrar? ==> |rules| == 1 && rules[0].target.PageTarget?
    ensures h[c].registrar.ApiRegistrar? ==> |rules| == 2 && rules[0].target.GroupTarget? && rules[1].target.ItemTarget?
    ensures rules[0].pattern == h[c].route.value
    ensures h[c].registrar.ApiRegistrar? ==> rules[1].pattern == h[c].route.value + "/<key>"
  {
    var route := h[c].route.value;
    match h[c].registrar
    case ViewRegistrar => [Rule(route, h[c].name, PageTarget(c))]
    case ApiRegistrar =>
      [Rule(route, h[c].name + "-group", GroupTarget(c)),
       Rule(ItemPattern(route), h[c].name + "-items", ItemTarget(c))]
  }

  predicate Routable(h: Hierarchy, cs: seq<nat>) {
    forall i :: 0 <= i < |cs| ==> cs[i] < |h| && h[cs[i]].route.Some?
  }

  /** The rules the classes `cs` add when registered in that order. */
  function RulesOf(h: Hierarchy, cs: seq<nat>): seq<Rule>
    requires Routable(h, cs)
  {
    if cs == [] then []
    else RulesOf(h, cs[..|cs| - 1]) + ClassRules(h, cs[|cs| - 1])
  }

  /**
   * No two rules share an endpoint name or a URL pattern: `add_url_rule`
   * refuses a second view function under an endpoint name already taken, and
   * a second rule on a pattern would never be reached.
   */
  predicate RulesApart(rules: seq<Rule>) {
    forall i, j :: 0 <= i < j < |rules| ==>
      rules[i].endpoint != rules[j].endpoint && rules[i].pattern != rules[j].pattern
  }

  /** The text ends with the item suffix an API view appends to its route. */
  predicate EndsWithKey(s: string) {
    |s| >= 6 && s[|s| - 6..] == "/<key>"
  }

  /**
   * The routed classes have distinct names and distinct routes; no class's
   * name is an API view's endpoint name, and no route ends with the item
   * suffix.
   */
  ghost predicate NamesApart(h: Hierarchy) {
    && (forall c, d :: 0 <= c < d < |h| && h[c].route.Some? && h[d].route.Some? ==>
          h[c].name != h[d].name && h[c].route.value != h[d].route.value)
    && (forall c, d ::
          && 0 <= c < |h| && 0 <= d < |h| && h[c].route.Some? && h[d].route.Some?
          && h[d].registrar.ApiRegistrar?
          ==> h[c].name != h[d].name + "-group" && h[c].name != h[d].name + "-items")
    && (forall c :: 0 <= c < |h| && h[c].route.Some? ==> !EndsWithKey(h[c].route.value))
  }

  /** Names with suffixes of one length differ when the names or the suffixes do. */
  lemma SuffixedNamesDiffer(a: string, x: string, b: string, y: string)
    requires |x| == |y| && (a != b || x != y)
    ensures a + x != b + y
  {
    assert (a + x)[..|a|] == a && (a + x)[|a|..] == x;
    assert (b + y)[..|b|] == b && (b + y)[|b|..] == y;
  }

  /** URL patterns built from routes that do not end with the item suffix differ. */
  lemma PatternsDiffer(a: string, x: string, b: string, y: string)
    requires x == "" || x == "/<key>"
    requires y == "" || y == "/<key>"
    requires !EndsWithKey(a) && !EndsWithKey(b)
    requires a != b || x != y
    ensures a + x != b + y
  {
    assert (a + x)[..|a|] == a && (a + x)[|a|..] == x;
    assert (b + y)[..|b|] == b && (b + y)[|b|..] == y;
    if x == "" && y != "" && |a| == |b| + |y| {
      assert (b + y)[|b|..] == y;
    } else if x != "" && y == "" && |b| == |a| + |x| {
      assert (a + x)[|a|..] == x;
    }
  }

  /** The suffix class `c`'s rule `r` appends to the class name, and to the route. */
  function NameSuffix(h: Hierarchy, c: nat, r: Rule): string
    requires c < |h|
  {
    if h[c].registrar.ViewRegistrar? then "" else if r.target.GroupTarget? then "-group" else "-items"
  }

  function RouteSuffix(r: Rule): string {
    if r.target.ItemTarget? then "/<key>" else ""
  }

  /** Every rule of a class is its name and route with the rule's suffixes. */
  lemma RuleShape(h: Hierarchy, c: nat, r: Rule)
    requires c < |h| && h[c].route.Some? && r in ClassRules(h, c)
    ensures r.endpoint == h[c].name + NameSuffix(h, c, r)
    ensures r.pattern == h[c].route.value + RouteSuffix(r)
    ensures r.target.ItemTarget? ==> h[c].registrar.ApiRegistrar?
  {
    assert h[c].name + "" == h[c].name;
    assert h[c].route.value + "" == h[c].route.value;
  }

  /** The rules of one class are apart. */
  lemma ClassRulesApart(h: Hierarchy, c: nat)
    requires NamesApart(h) && c < |h| && h[c].route.Some?
    ensures RulesApart(ClassRules(h, c))
  {
    var rules := ClassRules(h, c);
    if |rules| == 2 {
      SuffixedNamesDiffer(h[c].name, "-group", h[c].name, "-items");
      PatternsDiffer(h[c].route.value, "", h[c].route.value, "/<key>");
      assert h[c].route.value + "" == h[c].route.value;
    }
  }

  /** Rules of two different classes never clash. */
  lemma RulesOfTwoClassesApart(h: Hierarchy, c: nat, d: nat, r1: Rule, r2: Rule)
    requires NamesApart(h) && c < |h| && d < |h| && c != d
    requires h[c].route.Some? && h[d].route.Some?
    requires r1 in ClassRules(h, c) && r2 in ClassRules(h, d)
    ensures r1.endpoint != r2.endpoint && r1.pattern != r2.pattern
  {
    RuleShape(h, c, r1);
    RuleShape(h, d, r2);
    assert h[c].name != h[d].name && h[c].route.value != h[d].route.value by {
      if c < d {
        assert h[c].name != h[d].name && h[c].route.value != h[d].route.value;
      } else {
        assert h[d].name != h[c].name && h[d].route.value != h[c].route.value;
      }
    }
    if h[c].registrar.ApiRegistrar? && h[d].registrar.ApiRegistrar? {
      SuffixedNamesDiffer(h[c].name, NameSuffix(h, c, r1), h[d].name, NameSuffix(h, d, r2));
    } else if h[d].registrar.ApiRegistrar? {
      assert h[c].name != h[d].name + "-group" && h[c].name != h[d].name + "-items";
    } else if h[c].registrar.ApiRegistrar? {
      assert h[d].name != h[c].name + "-group" && h[d].name != h[c].name + "-items";
    }
    PatternsDiffer(h[c].route.value, RouteSuffix(r1), h[d].route.value, RouteSuffix(r2));
  }

  /**
   * Registering distinct classes whose names and routes are apart adds rules
   * that are apart; each rule is one its class adds.
   */
  lemma {:induction false} RulesOfApart(h: Hierarchy, cs: seq<nat>)
    requires NamesApart(h) && Routable(h, cs) && Distinct(cs)
    ensures RulesApart(RulesOf(h, cs))
    ensures forall r :: r in RulesOf(h, cs) ==>
              r.target.cls in cs && r.target.cls < |h| && h[r.target.cls].route.Some? &&
              r in ClassRules(h, r.target.cls)
    decreases |cs|
  {
    if cs != [] {
      var init, last := cs[..|cs| - 1], cs[|cs| - 1];
      assert forall x :: x in init ==> x in cs && x != last;
      RulesOfApart(h, init);
      var a, b := RulesOf(h, init), ClassRules(h, last);
      ClassRulesApart(h, last);
      var w := a + b;
      assert w == RulesOf(h, cs);
      forall i, j | 0 <= i < j < |w|
        ensures w[i].endpoint != w[j].endpoint && w[i].pattern != w[j].pattern
      {
        if j < |a| {
          assert w[i] == a[i] && w[j] == a[j];
        } else if i >= |a| {
          assert w[i] == b[i - |a|] && w[j] == b[j - |a|];
        } else {
          assert w[i] == a[i] && w[j] == b[j - |a|];
          assert a[i] in a && b[j - |a|] in b;
          RulesOfTwoClassesApart(h, a[i].target.cls, last, a[i], b[j - |a|]);
        }
      }
      forall r | r in w
        ensures r.target.cls in cs && r.target.cls < |h| && h[r.target.cls].route.Some?
        ensures r in ClassRules(h, r.target.cls)
      {
        if r !in a {
          assert r in b;
        }
      }
    }
  }

  /** Which classes of the first `k` of the walk `w` are seen and which registered. */
  ghost predicate SeenUpTo(h: Hierarchy, w: seq<nat>, k: nat, seen: set<nat>, routed: seq<nat>)
    requires k <= |w|
  {
    && (forall x :: x in seen <==> x in w[..k])
    && (forall x :: x in routed <==> x in w[..k] && x < |h| && h[x].route.Some?)
  }

  /**
   * The registered classes are distinct and routable, all their subclasses
   * are among the first `k` of the walk, and subclasses come first.
   */
  ghost predicate OrderedUpTo(h: Hierarchy, w: seq<nat>, k: nat, routed: seq<nat>)
    requires WellFormed(h) && k <= |w|
  {
    && Distinct(routed)
    && Routable(h, routed)
    && (forall i, d :: 0 <= i < |routed| && d in Subviews(h, routed[i]) ==> d in w[..k])
    && (forall i, j ::
          0 <= i < |routed| && 0 <= j < |routed| && routed[j] in Subviews(h, routed[i]) ==> j < i)
  }

  /** The state of `register_all_subviews` after the first `k` classes of the walk `w`. */
  ghost predicate RegisteredUpTo(h: Hierarchy, w: seq<nat>, k: nat,
                                 seen: set<nat>, routed: seq<nat>, rules: seq<Rule>)
    requires WellFormed(h) && k <= |w|
  {
    SeenUpTo(h, w, k, seen, routed) && OrderedUpTo(h, w, k, routed) && Routable(h, routed) &&
    rules == RulesOf(h, routed)
  }

  /** Registering a class not seen before keeps the registered classes ordered. */
  lemma RegisterStepOrder(h: Hierarchy, w: seq<nat>, k: nat, seen: set<nat>, routed: seq<nat>)
    requires WellFormed(h) && ChildrenFirst(h, w) && k < |w|
    requires SeenUpTo(h, w, k, seen, routed) && OrderedUpTo(h, w, k, routed)
    requires w[k] !in seen && h[w[k]].route.Some?
    ensures OrderedUpTo(h, w, k + 1, routed + [w[k]])
  {
    var v := w[k];
    assert w[..k + 1] == w[..k] + [v];
    assert forall d :: d in Subviews(h, v) ==> d in w[..k];
    var routed' := routed + [v];
    assert v !in w[..k];
    assert forall i :: 0 <= i < |routed| ==> v !in Subviews(h, routed[i]);
    forall i, j | 0 <= i < |routed'| && 0 <= j < |routed'| && routed'[j] in Subviews(h, routed'[i])
      ensures j < i
    {
      if i < |routed| {
        assert routed'[i] == routed[i];
      }
    }
  }

  /** Registering a class not seen before keeps the state consistent. */
  lemma RegisterStep(h: Hierarchy, w: seq<nat>, k: nat,
                     seen: set<nat>, routed: seq<nat>, rules: seq<Rule>)
    requires WellFormed(h) && ChildrenFirst(h, w) && k < |w|
    requires RegisteredUpTo(h, w, k, seen, routed, rules)
    requires w[k] !in seen && h[w[k]].route.Some?
    ensures RegisteredUpTo(h, w, k + 1, seen + {w[k]}, routed + [w[k]],
                           rules + ClassRules(h, w[k]))
  {
    var v := w[k];
    assert w[..k + 1] == w[..k] + [v];
    RegisterStepOrder(h, w, k, seen, routed);
    var routed' := routed + [v];
    assert routed'[..|routed'| - 1] == routed;
    assert SeenUpTo(h, w, k + 1, seen + {v}, routed');
  }

  /** Skipping a class already seen, or one without a route, keeps the state consistent. */
  lemma SkipStep(h: Hierarchy, w: seq<nat>, k: nat,
                 seen: set<nat>, routed: seq<nat>, rules: seq<Rule>)
    requires WellFormed(h) && ChildrenFirst(h, w) && k < |w|
    requires RegisteredUpTo(h, w, k, seen, routed, rules)
    requires w[k] in seen || h[w[k]].route.None?
    ensures RegisteredUpTo(h, w, k + 1, seen + {w[k]}, routed, rules)
  {
    assert w[..k + 1] == w[..k] + [w[k]];
    assert SeenUpTo(h, w, k + 1, seen + {w[k]}, routed);
  }

  /** What the registration state says once the whole walk of `root` is done. */
  lemma {:induction false} RegisteredAll(h: Hierarchy, root: nat,
                                         seen: set<nat>, routed: seq<nat>, rules: seq<Rule>)
    requires WellFormed(h) && root < |h|
    requires RegisteredUpTo(h, Subviews(h, root), |Subviews(h, root)|, seen, routed, rules)
    ensures forall x: nat :: x in seen <==> Descends(h, root, x)
    ensures forall x: nat :: x in routed <==> x < |h| && Descends(h, root, x) && h[x].route.Some?
    ensures root !in routed
    ensures Distinct(routed)
    ensures Routable(h, routed)
    ensures forall i, j ::
              0 <= i < |routed| && 0 <= j < |routed| && Descends(h, routed[i], routed[j]) ==> j < i
    ensures rules == RulesOf(h, routed)
  {
    var w := Subviews(h, root);
    assert w[..|w|] == w;
    forall x: nat
      ensures x in seen <==> Descends(h, root, x)
    {
      SubviewsAreDescendants(h, root, x);
    }
    SubviewsAreDescendants(h, root, root);
    forall i, j | 0 <= i < |routed| && 0 <= j < |routed| && Descends(h, routed[i], routed[j])
      ensures j < i
    {
      SubviewsAreDescendants(h, routed[i], routed[j]);
    }
  }

  /**
   * `register_all_subviews` on class `root`: `seen` is its `registered` set,
   * `routed` the classes whose `_register` ran, in order, and `rules` the URL
   * rules added. Every transitive subclass is seen; exactly those with a
   * route are registered, each once, subclasses before their superclasses.
   */
  method RegisterAll(h: Hierarchy, root: nat) returns (seen: set<nat>, routed: seq<nat>, rules: seq<Rule>)
    requires WellFormed(h) && root < |h|
    ensures forall x: nat :: x in seen <==> Descends(h, root, x)
    ensures forall x: nat :: x in routed <==> x < |h| && Descends(h, root, x) && h[x].route.Some?
    ensures root !in routed
    ensures Distinct(routed)
    ensures Routable(h, routed)
    ensures forall i, j ::
              0 <= i < |routed| && 0 <= j < |routed| && Descends(h, routed[i], routed[j]) ==> j < i
    ensures rules == RulesOf(h, routed)
  {
    var w := Subviews(h, root);
    WalkIsPostOrder(h, root);
    seen := {};
    routed := [];
    rules := [];
    var k := 0;
    while k < |w|
      invariant k <= |w|
      invariant RegisteredUpTo(h, w, k, seen, routed, rules)
    {
      var v := w[k];
      if v !in seen && h[v].route.Some? {
        RegisterStep(h, w, k, seen, routed, rules);
        routed := routed + [v];
        rules := rules + ClassRules(h, v);
      } else {
        SkipStep(h, w, k, seen, routed, rules);
      }
      seen := seen + {v};
      k := k + 1;
    }
    RegisteredAll(h, root, seen, routed, rules);
  }
}
