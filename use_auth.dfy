/** The authentication context (hooks/useAuth.tsx): the provider that seeds
    the administrator, restores a persisted session, and mirrors the store's
    logged-in user in its own state. */
module UseAuth {
  import opened Wrappers
  import opened Storage
  import opened AuthService

  /** What `useAuth` throws outside its provider: it returns `context.ToResult(OUTSIDE_PROVIDER)`. */
  const OUTSIDE_PROVIDER: string := "useAuth must be used within an AuthProvider"

  class AuthProvider {
    const store: AuthStore
    var currentUser: Option<User>
    var loading: bool

    /** The provider's user agrees with the session the store holds. */
    predicate Synced()
      reads this, store
    {
      currentUser == store.CurrentUser()
    }

    /** The first render: no user yet, and still loading. */
    constructor(store: AuthStore)
      ensures this.store == store
      ensures currentUser == None && loading
    {
      this.store := store;
      currentUser := None;
      loading := true;
    }

    /** Children are rendered only once loading has finished. */
    predicate RendersChildren()
      reads this
    {
      !loading
    }

    /** The mount effect: seed the administrator, pick up a persisted session,
        and stop loading. From the first render it leaves the provider synced. */
    method Mount(stamp: string)
      modifies this, store
      ensures store.Users() == WithAdmin(old(store.Users()), stamp)
      ensures store.sessionSlot == old(store.sessionSlot)
      ensures store.CurrentUser().Some? ==> currentUser == store.CurrentUser()
      ensures store.CurrentUser().None? ==> currentUser == old(currentUser)
      ensures old(currentUser) == None ==> Synced()
      ensures !loading && RendersChildren()
    {
      store.InitAdmin(stamp);
      var user := store.CurrentUser();
      if user.Some? {
        currentUser := user;
      }
      loading := false;
    }

    /** `login`: on success the user becomes current here and in the session;
        on failure the error propagates and nothing changes. */
    method Login(email: string, password: string) returns (r: Result<User, AuthError>)
      modifies this, store
      ensures r == Authenticate(old(store.Users()), email, password)
      ensures r.Success? ==> currentUser == Some(r.value) && store.sessionSlot == Stored(r.value)
      ensures r.Failure? ==> currentUser == old(currentUser) && store.sessionSlot == old(store.sessionSlot)
      ensures store.usersSlot == old(store.usersSlot) && loading == old(loading)
      ensures old(Synced()) ==> Synced()
    {
      r := store.Login(email, password);
      if r.Success? {
        currentUser := Some(r.value);
      }
    }

    /** `register`: the account is created but nobody is logged in by it. */
    method Register(email: string, password: string, nonce: string) returns (r: Result<User, AuthError>)
      modifies store
      ensures EmailTaken(old(store.Users()), email) ==>
        r == Failure(DuplicateEmail) && store.usersSlot == old(store.usersSlot)
      ensures !EmailTaken(old(store.Users()), email) ==>
        r == Success(NewUser(email, password, nonce)) && store.Users() == old(store.Users()) + [r.value]
      ensures currentUser == old(currentUser) && store.sessionSlot == old(store.sessionSlot)
      ensures old(Synced()) ==> Synced()
    {
      r := store.Register(email, password, nonce);
    }

    /** `logout`: clears the session and the provider's user. */
    method Logout()
      modifies this, store
      ensures currentUser == None && store.sessionSlot == Absent
      ensures store.usersSlot == old(store.usersSlot) && loading == old(loading)
      ensures Synced()
    {
      store.Logout();
      currentUser := None;
    }
  }
}
