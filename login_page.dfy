/** The sign-in form (pages/LoginPage.tsx) and the routes the sign-in pages
    navigate to. */
module LoginPage {
  import opened Wrappers
  import opened AuthService
  import opened Storage
  import opened UseToast
  import UseAuth

  /** The routes the sign-in pages navigate to. */
  datatype Route = AdminRoute | HomeRoute | PendingRoute | LoginRoute

  function Path(route: Route): string
  {
    match route
    case AdminRoute => "/admin"
    case HomeRoute => "/"
    case PendingRoute => "/pending"
    case LoginRoute => "/login"
  }

  const LOGIN_MESSAGE: string := "Login bem-sucedido!"

  /** Where a signed-in user goes: administrators to the panel whatever their
      approval, approved users to the summariser, everyone else to the waiting page. */
  function RouteFor(user: User): (r: Route)
    ensures r == AdminRoute <==> user.isAdmin
    ensures r == HomeRoute <==> !user.isAdmin && user.isApproved
    ensures r == PendingRoute <==> !user.isAdmin && !user.isApproved
  {
    if user.isAdmin then AdminRoute
    else if user.isApproved then HomeRoute
    else PendingRoute
  }

  /** The seeded administrator, signing in with the fixed credentials on a list
      where no one else uses that email, reaches the administration panel. */
  lemma SeededAdminReachesPanel(users: seq<User>, stamp: string)
    requires !HasAdmin(users) && !EmailTaken(users, ADMIN_EMAIL)
    ensures Authenticate(WithAdmin(users, stamp), ADMIN_EMAIL, ADMIN_PASSWORD) == Success(AdminRecord(stamp))
    ensures RouteFor(AdminRecord(stamp)) == AdminRoute
  {
    InitAdminSeedsExactlyOne(users, stamp);
    var r := WithAdmin(users, stamp);
    var a := Authenticate(r, ADMIN_EMAIL, ADMIN_PASSWORD);
    assert r[|users|] == AdminRecord(stamp);
    assert a.Success?;
    var i :| 0 <= i < |r| && r[i].email == ADMIN_EMAIL && r[i].password == ADMIN_PASSWORD && a.value == r[i];
  }

  /** A freshly registered account signs in straight to the waiting page. */
  lemma NewAccountWaitsForApproval(users: seq<User>, email: string, password: string, nonce: string)
    requires !EmailTaken(users, email)
    ensures var a := Authenticate(users + [NewUser(email, password, nonce)], email, password);
      a.Success? && RouteFor(a.value) == PendingRoute
  {
    RegisterThenLogin(users, email, password, nonce, nonce);
  }

  class LoginPageState {
    var email: string
    var password: string
    var isLoading: bool
    /** The last navigation the page asked for. */
    var navigatedTo: Option<Route>
    const auth: UseAuth.AuthProvider

    constructor(auth: UseAuth.AuthProvider, email: string, password: string)
      ensures this.auth == auth && this.email == email && this.password == password
      ensures !isLoading && navigatedTo == None
    {
      this.auth := auth;
      this.email := email;
      this.password := password;
      isLoading := false;
      navigatedTo := None;
    }

    /** `handleSubmit`: a success notices it and navigates by role and approval,
        leaving the form loading as it leaves the page; a failure shows the
        refusal, does not navigate, and stops loading. */
    method HandleSubmit() returns (notices: seq<Notice>)
      modifies this, auth, auth.store
      ensures email == old(email) && password == old(password)
      ensures var r := Authenticate(old(auth.store.Users()), email, password);
        && (r.Success? ==>
              && auth.currentUser == Some(r.value) && auth.store.sessionSlot == Stored(r.value)
              && navigatedTo == Some(RouteFor(r.value)) && isLoading
              && notices == [Notice(LOGIN_MESSAGE, SuccessToast)])
        && (r.Failure? ==>
              && auth.currentUser == old(auth.currentUser)
              && auth.store.sessionSlot == old(auth.store.sessionSlot)
              && navigatedTo == old(navigatedTo) && !isLoading
              && notices == [Notice(Message(r.error), ErrorToast)])
      ensures auth.store.usersSlot == old(auth.store.usersSlot) && auth.loading == old(auth.loading)
      ensures old(auth.Synced()) ==> auth.Synced()
    {
      isLoading := true;
      var r := auth.Login(email, password);
      if r.Success? {
        notices := [Notice(LOGIN_MESSAGE, SuccessToast)];
        navigatedTo := Some(RouteFor(r.value));
      } else {
        notices := [Notice(Message(r.error), ErrorToast)];
        isLoading := false;
      }
    }
  }
}
