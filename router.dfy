/**
 * The route table and the navigation guard of src/app/router.ts. Every
 * page except the login page and the not-found page asks for
 * authentication; the guard sends a visitor without a token to the login
 * page, remembering where they were going, and sends a signed-in user
 * away from the login page to the dashboard. Whether a token is stored is
 * an input of the guard.
 */
module Router {
  import opened Wrappers

  datatype RouteName =
    | Login | Dashboard | Spots | Customers | Reservations | ReservationDetail
    | Fiscal | Settings | ComingSoon | NotFound

  /** A route record: its path pattern, its name, the path it redirects to
      and the meta fields: whether it asks for authentication, the layout
      it is shown in and its title. */
  datatype RouteRecord = RouteRecord(
    path: string,
    name: Option<RouteName>,
    redirect: Option<string>,
    requiresAuth: bool,
    layout: Option<string>,
    title: Option<string>)

  function Page(path: string, name: RouteName, title: string): RouteRecord {
    RouteRecord(path, Some(name), None, true, None, Some(title))
  }

  /** The route table, in its order. */
  const Routes: seq<RouteRecord> := [
    RouteRecord("/login", Some(Login), None, false, Some("auth"), None),
    RouteRecord("/", None, Some("/dashboard"), false, None, None),
    Page("/dashboard", Dashboard, "Tableau de bord"),
    Page("/spots", Spots, "Emplacements"),
    Page("/customers", Customers, "Clients"),
    Page("/reservations", Reservations, "R\U{E9}servations"),
    Page("/reservations/:id", ReservationDetail, "D\U{E9}tail r\U{E9}servation"),
    Page("/fiscal", Fiscal, "Fiscalit\U{E9}"),
    Page("/settings", Settings, "Param\U{E8}tres"),
    Page("/coming-soon", ComingSoon, "Bient\U{F4}t disponible"),
    RouteRecord("/:pathMatch(.*)*", Some(NotFound), None, false, None, None)
  ]

  /** The route a name refers to, the first in the table. */
  function RouteNamed(name: RouteName): (r: Option<RouteRecord>)
    ensures r.Some? ==> r.value in Routes && r.value.name == Some(name)
  {
    Find(Routes, name)
  }

  function Find(rs: seq<RouteRecord>, name: RouteName): (r: Option<RouteRecord>)
    ensures r.Some? ==> r.value in rs && r.value.name == Some(name)
    ensures r.None? ==> forall x :: x in rs ==> x.name != Some(name)
  {
    if rs == [] then None
    else if rs[0].name == Some(name) then Some(rs[0])
    else
      var r := Find(rs[1..], name);
      assert forall x :: x in rs ==> x == rs[0] || x in rs[1..];
      r
  }

  // ---------------------------------------------------------------------
  // The table
  // ---------------------------------------------------------------------

  /** Where each name sits in the table. */
  function Slot(name: RouteName): nat {
    match name
    case Login => 0
    case Dashboard => 2
    case Spots => 3
    case Customers => 4
    case Reservations => 5
    case ReservationDetail => 6
    case Fiscal => 7
    case Settings => 8
    case ComingSoon => 9
    case NotFound => 10
  }

  /** The shape of one row: a named row sits at its name's slot and asks
      for authentication unless it is the login page or the not-found
      page; the one unnamed row is a redirection open to everyone. */
  lemma RowShape(i: int)
    requires 0 <= i < |Routes|
    ensures Routes[i].name.Some? ==> Slot(Routes[i].name.value) == i
    ensures Routes[i].name.Some? ==>
              (Routes[i].requiresAuth <==> Routes[i].name.value != Login && Routes[i].name.value != NotFound)
    ensures Routes[i].name.None? ==> i == 1 && Routes[i].redirect.Some? && !Routes[i].requiresAuth
  {
    if i == 0 {} else if i == 1 {} else if i == 2 {} else if i == 3 {} else if i == 4 {}
    else if i == 5 {} else if i == 6 {} else if i == 7 {} else if i == 8 {} else if i == 9 {}
  }

  /** No two rows share a name; the login page and the not-found page are
      the only named routes open without a token. */
  lemma RouteTableShape()
    ensures forall i, j :: 0 <= i < j < |Routes| && Routes[i].name.Some? ==> Routes[i].name != Routes[j].name
    ensures forall i :: 0 <= i < |Routes| && Routes[i].name.Some? ==>
              (Routes[i].requiresAuth <==> Routes[i].name.value != Login && Routes[i].name.value != NotFound)
    ensures forall i :: 0 <= i < |Routes| && Routes[i].name.None? ==> Routes[i].redirect.Some? && !Routes[i].requiresAuth
  {
    forall i | 0 <= i < |Routes| ensures RowFacts(i) {
      RowShape(i);
    }
  }

  predicate RowFacts(i: int)
    requires 0 <= i < |Routes|
  {
    && (Routes[i].name.Some? ==> Slot(Routes[i].name.value) == i)
    && (Routes[i].name.Some? ==>
          (Routes[i].requiresAuth <==> Routes[i].name.value != Login && Routes[i].name.value != NotFound))
    && (Routes[i].name.None? ==> Routes[i].redirect.Some? && !Routes[i].requiresAuth)
  }

  /** Every name has a route, found at its slot, and "/" sends to the
      dashboard's path. */
  lemma EveryNameRouted(name: RouteName)
    ensures Slot(name) < |Routes| && RouteNamed(name) == Some(Routes[Slot(name)])
    ensures Routes[1].path == "/" && Routes[1].redirect == Some(Routes[Slot(Dashboard)].path)
  {
    var k := Slot(name);
    SlotHoldsName(name);
    forall i | 0 <= i < k ensures Routes[i].name != Some(name) {
      RowShape(i);
    }
    FindAt(Routes, name, k);
  }

  lemma SlotHoldsName(name: RouteName)
    ensures Slot(name) < |Routes| && Routes[Slot(name)].name == Some(name)
  {
    match name
    case Login =>
    case Dashboard =>
    case Spots =>
    case Customers =>
    case Reservations =>
    case ReservationDetail =>
    case Fiscal =>
    case Settings =>
    case ComingSoon =>
    case NotFound =>
  }

  /** Find returns the row at index k when no earlier row has the name. */
  lemma {:induction false} FindAt(rs: seq<RouteRecord>, name: RouteName, k: nat)
    requires k < |rs| && rs[k].name == Some(name)
    requires forall i :: 0 <= i < k ==> rs[i].name != Some(name)
    ensures Find(rs, name) == Some(rs[k])
  {
    if k > 0 {
      assert rs[0].name != Some(name);
      FindAt(rs[1..], name, k - 1);
    }
  }

  // ---------------------------------------------------------------------
  // The guard
  // ---------------------------------------------------------------------

  /** The route being entered, as the guard sees it. */
  datatype Target = Target(name: Option<RouteName>, requiresAuth: bool, fullPath: string)

  /** The target of a route of the table, reached at `fullPath`. */
  function TargetOf(r: RouteRecord, fullPath: string): Target {
    Target(r.name, r.requiresAuth, fullPath)
  }

  /** The guard's one call to next: go on, go to the login page with the
      target's path as the `redirect` query, or go to the dashboard. */
  datatype Decision = Proceed | RedirectToLogin(redirect: string) | RedirectToDashboard

  /** beforeEach. */
  function Guard(to: Target, hasToken: bool): (d: Decision)
    ensures d == RedirectToLogin(to.fullPath) <==> to.requiresAuth && !hasToken
    ensures d == RedirectToDashboard <==> to.name == Some(Login) && hasToken
    ensures d.RedirectToLogin? ==> d.redirect == to.fullPath
  {
    if to.requiresAuth && !hasToken then RedirectToLogin(to.fullPath)
    else if to.name == Some(Login) && hasToken then RedirectToDashboard
    else Proceed
  }

  /** On the routes of the table: a protected page opens with a token and
      sends to the login page without one; the login page sends a
      signed-in user to the dashboard and opens otherwise; every other
      route opens. */
  lemma GuardOnTable(r: RouteRecord, fullPath: string, hasToken: bool)
    requires r in Routes
    ensures var d := Guard(TargetOf(r, fullPath), hasToken);
            if r.requiresAuth then d == (if hasToken then Proceed else RedirectToLogin(fullPath))
            else if r.name == Some(Login) then d == (if hasToken then RedirectToDashboard else Proceed)
            else d == Proceed
  {
  }

  /** The login page is the first row of the table and asks for no
      authentication, so the guard lets a visitor without a token reach
      it. */
  lemma LoginIsOpen()
    ensures RouteNamed(Login) == Some(Routes[0]) && !Routes[0].requiresAuth
  {
  }

  /** A redirection of the guard ends at a page the guard then lets
      through, so navigation never loops. */
  lemma RedirectsSettle(to: Target, hasToken: bool, path: string)
    ensures Guard(to, hasToken).RedirectToLogin? ==>
              Guard(TargetOf(RouteNamed(Login).value, path), hasToken) == Proceed
    ensures Guard(to, hasToken) == RedirectToDashboard ==>
              RouteNamed(Dashboard).Some? && Guard(TargetOf(RouteNamed(Dashboard).value, path), hasToken) == Proceed
  {
    EveryNameRouted(Dashboard);
    assert RouteNamed(Login) == Some(Routes[0]);
    assert RouteNamed(Dashboard) == Some(Routes[2]);
  }
}
