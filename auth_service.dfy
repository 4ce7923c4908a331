/** The local account store (services/authService.ts): user records kept in
    local storage, the logged-in user kept in session storage, a seeded
    administrator, registration, login, logout and approval. */
module AuthService {
  import opened Wrappers
  import opened Storage

  /** An account. The password is held as given. */
  datatype User = User(id: string, email: string, password: string, isAdmin: bool, isApproved: bool)

  /** The two ways an account operation is refused. */
  datatype AuthError = DuplicateEmail | InvalidCredentials

  /** The message each refusal carries. */
  function Message(e: AuthError): string
  {
    match e
    case DuplicateEmail => "Um usuário com este e-mail já existe."
    case InvalidCredentials => "E-mail ou senha inválidos."
  }

  const ADMIN_EMAIL: string := "admin@admin.com"
  const ADMIN_PASSWORD: string := "admin"

  /** The seeded administrator; `stamp` is the creation time in ISO form. */
  function AdminRecord(stamp: string): User
  {
    User("admin-" + stamp, ADMIN_EMAIL, ADMIN_PASSWORD, true, true)
  }

  /** A freshly registered account; `nonce` is the creation time followed by a random number. */
  function NewUser(email: string, password: string, nonce: string): User
  {
    User("user-" + nonce, email, password, false, false)
  }

  /** `Array.prototype.findIndex`: the first index whose element satisfies `p`. */
  function FirstIndex<T>(s: seq<T>, p: T -> bool): (r: Option<nat>)
    ensures r.Some? ==> r.value < |s| && p(s[r.value])
    ensures r.Some? ==> forall k | 0 <= k < r.value :: !p(s[k])
    ensures r.None? ==> forall k | 0 <= k < |s| :: !p(s[k])
  {
    if s == [] then None
    else if p(s[0]) then Some(0)
    else
      match FirstIndex(s[1..], p)
      case None => None
      case Some(i) => Some(i + 1)
  }

  predicate HasAdmin(users: seq<User>)
  {
    exists i | 0 <= i < |users| :: users[i].isAdmin
  }

  /** The number of administrator records. */
  function AdminCount(users: seq<User>): nat
  {
    if users == [] then 0
    else AdminCount(users[..|users| - 1]) + (if users[|users| - 1].isAdmin then 1 else 0)
  }

  predicate EmailTaken(users: seq<User>, email: string)
  {
    exists i | 0 <= i < |users| :: users[i].email == email
  }

  /** No two accounts share an email. */
  predicate EmailsUnique(users: seq<User>)
  {
    forall i, j | 0 <= i < j < |users| :: users[i].email != users[j].email
  }

  /** `initAdmin` on the user list: appends the administrator when there is none. */
  function WithAdmin(users: seq<User>, stamp: string): seq<User>
  {
    if HasAdmin(users) then users else users + [AdminRecord(stamp)]
  }

  /** The account a login with these credentials finds: the first whose email
      and password both equal the given ones, exactly. */
  function Authenticate(users: seq<User>, email: string, password: string): (r: Result<User, AuthError>)
    ensures r.Success? <==> exists i | 0 <= i < |users| :: users[i].email == email && users[i].password == password
    ensures r.Success? ==> exists i | 0 <= i < |users| ::
      (users[i] == r.value && forall k | 0 <= k < i :: !(users[k].email == email && users[k].password == password))
    ensures r.Success? ==> r.value.email == email && r.value.password == password
    ensures r.Failure? ==> r.error == InvalidCredentials
  {
    match FirstIndex(users, (u: User) => u.email == email && u.password == password)
    case Some(i) => Success(users[i])
    case None => Failure(InvalidCredentials)
  }

  /** `updateUserApproval` on the user list: the first account with this id gets the flag. */
  function SetApproval(users: seq<User>, userId: string, isApproved: bool): seq<User>
  {
    match FirstIndex(users, (u: User) => u.id == userId)
    case None => users
    case Some(i) => users[i := users[i].(isApproved := isApproved)]
  }

  lemma {:induction false} AdminCountAppend(users: seq<User>, u: User)
    ensures AdminCount(users + [u]) == AdminCount(users) + (if u.isAdmin then 1 else 0)
  {
    assert (users + [u])[..|users|] == users;
  }

  lemma {:induction false} AdminCountPositiveIffHasAdmin(users: seq<User>)
    ensures AdminCount(users) > 0 <==> HasAdmin(users)
  {
    if users != [] {
      var front := users[..|users| - 1];
      AdminCountPositiveIffHasAdmin(front);
      if HasAdmin(front) {
        var i :| 0 <= i < |front| && front[i].isAdmin;
        assert users[i].isAdmin;
      }
      if HasAdmin(users) && !users[|users| - 1].isAdmin {
        var i :| 0 <= i < |users| && users[i].isAdmin;
        assert front[i].isAdmin;
      }
    }
  }

  /** Two lists with the same administrator flags, in order, count the same. */
  lemma {:induction false} AdminCountSameFlags(a: seq<User>, b: seq<User>)
    requires |a| == |b|
    requires forall k | 0 <= k < |a| :: a[k].isAdmin == b[k].isAdmin
    ensures AdminCount(a) == AdminCount(b)
  {
    if a != [] {
      AdminCountSameFlags(a[..|a| - 1], b[..|b| - 1]);
    }
  }

  /** With no administrator, `initAdmin` appends exactly one record, the fixed
      administrator; with one, it leaves the list alone. */
  lemma InitAdminSeedsExactlyOne(users: seq<User>, stamp: string)
    ensures HasAdmin(users) ==> WithAdmin(users, stamp) == users
    ensures !HasAdmin(users) ==>
      (WithAdmin(users, stamp) == users + [AdminRecord(stamp)] && AdminCount(WithAdmin(users, stamp)) == 1)
    ensures HasAdmin(WithAdmin(users, stamp))
  {
    AdminCountPositiveIffHasAdmin(users);
    if !HasAdmin(users) {
      AdminCountAppend(users, AdminRecord(stamp));
      var r := WithAdmin(users, stamp);
      assert r[|users|].isAdmin;
    }
  }

  /** A second `initAdmin` changes nothing, so two calls leave exactly one administrator. */
  lemma InitAdminIdempotent(users: seq<User>, first: string, second: string)
    ensures WithAdmin(WithAdmin(users, first), second) == WithAdmin(users, first)
    ensures !HasAdmin(users) ==> AdminCount(WithAdmin(WithAdmin(users, first), second)) == 1
  {
    InitAdminSeedsExactlyOne(users, first);
  }

  /** Registering a new email keeps emails unique and adds no administrator. */
  lemma RegisterKeepsInvariants(users: seq<User>, email: string, password: string, nonce: string)
    requires EmailsUnique(users) && !EmailTaken(users, email)
    ensures EmailsUnique(users + [NewUser(email, password, nonce)])
    ensures AdminCount(users + [NewUser(email, password, nonce)]) == AdminCount(users)
  {
    var r := users + [NewUser(email, password, nonce)];
    forall i, j | 0 <= i < j < |r| ensures r[i].email != r[j].email {
      if j == |users| {
        assert users[i].email == r[i].email;
      }
    }
    AdminCountAppend(users, NewUser(email, password, nonce));
  }

  /** Once registered, an account can log in at once, approved or not, and finds itself;
      registering the same email again is refused. */
  lemma RegisterThenLogin(users: seq<User>, email: string, password: string, nonce: string, again: string)
    requires !EmailTaken(users, email)
    ensures Authenticate(users + [NewUser(email, password, nonce)], email, password)
      == Success(NewUser(email, password, nonce))
    ensures EmailTaken(users + [NewUser(email, password, nonce)], email)
  {
    var r := users + [NewUser(email, password, nonce)];
    var a := Authenticate(r, email, password);
    assert r[|users|].email == email && r[|users|].password == password;
  }

  /** `updateUserApproval` sets the approval flag of the first account with
      that id and touches nothing else; for an unknown id it changes nothing. */
  lemma SetApprovalFrame(users: seq<User>, userId: string, isApproved: bool)
    ensures |SetApproval(users, userId, isApproved)| == |users|
    ensures forall k | 0 <= k < |users| ::
      SetApproval(users, userId, isApproved)[k] == users[k]
      || (users[k].id == userId && SetApproval(users, userId, isApproved)[k] == users[k].(isApproved := isApproved)
          && forall j | 0 <= j < k :: users[j].id != userId)
    ensures (forall k | 0 <= k < |users| :: users[k].id != userId) ==> SetApproval(users, userId, isApproved) == users
    ensures forall k | 0 <= k < |users| && users[k].id == userId ::
      (forall j | 0 <= j < k :: users[j].id != userId) ==>
        SetApproval(users, userId, isApproved)[k] == users[k].(isApproved := isApproved)
  {
  }

  /** Approval changes keep emails unique and the number of administrators. */
  lemma SetApprovalKeepsInvariants(users: seq<User>, userId: string, isApproved: bool)
    ensures EmailsUnique(users) ==> EmailsUnique(SetApproval(users, userId, isApproved))
    ensures AdminCount(SetApproval(users, userId, isApproved)) == AdminCount(users)
  {
    SetApprovalFrame(users, userId, isApproved);
    AdminCountSameFlags(SetApproval(users, userId, isApproved), users);
  }

  /** The browser's storage as this service uses it: the account list under
      one local-storage key and the logged-in user under one session-storage key. */
  class AuthStore {
    var usersSlot: Slot<seq<User>>
    var sessionSlot: Slot<User>

    /** The store over whatever the two keys hold when the page loads. */
    constructor(users: Slot<seq<User>>, session: Slot<User>)
      ensures usersSlot == users && sessionSlot == session
    {
      usersSlot := users;
      sessionSlot := session;
    }

    /** `getUsers` and `getAllUsers`: a missing or unreadable list reads as empty. */
    function Users(): (r: seq<User>)
      reads this
      ensures usersSlot.Stored? ==> r == usersSlot.value
      ensures !usersSlot.Stored? ==> r == []
    {
      usersSlot.ReadOr([])
    }

    /** `getCurrentUser`: a missing or unreadable session reads as logged out. */
    function CurrentUser(): (r: Option<User>)
      reads this
      ensures sessionSlot.Stored? <==> r.Some?
      ensures r.Some? ==> r.value == sessionSlot.value
    {
      if sessionSlot.Stored? then Some(sessionSlot.value) else None
    }

    method InitAdmin(stamp: string)
      modifies this
      ensures Users() == WithAdmin(old(Users()), stamp)
      ensures HasAdmin(old(Users())) ==> usersSlot == old(usersSlot)
      ensures sessionSlot == old(sessionSlot)
    {
      var users := Users();
      var adminExists := HasAdmin(users);
      if !adminExists {
        users := users + [AdminRecord(stamp)];
        usersSlot := Stored(users);
      }
    }

    method Register(email: string, password: string, nonce: string) returns (r: Result<User, AuthError>)
      modifies this
      ensures EmailTaken(old(Users()), email) ==> r == Failure(DuplicateEmail) && usersSlot == old(usersSlot)
      ensures !EmailTaken(old(Users()), email) ==>
        r == Success(NewUser(email, password, nonce)) && usersSlot == Stored(old(Users()) + [r.value])
      ensures sessionSlot == old(sessionSlot)
    {
      var users := Users();
      if EmailTaken(users, email) {
        return Failure(DuplicateEmail);
      }
      var newUser := NewUser(email, password, nonce);
      users := users + [newUser];
      usersSlot := Stored(users);
      r := Success(newUser);
    }

    method Login(email: string, password: string) returns (r: Result<User, AuthError>)
      modifies this
      ensures r == Authenticate(old(Users()), email, password)
      ensures r.Success? ==> sessionSlot == Stored(r.value)
      ensures r.Failure? ==> sessionSlot == old(sessionSlot)
      ensures usersSlot == old(usersSlot)
    {
      var users := Users();
      r := Authenticate(users, email, password);
      if r.Success? {
        sessionSlot := Stored(r.value);
      }
    }

    method Logout()
      modifies this
      ensures sessionSlot == Absent && CurrentUser() == None
      ensures usersSlot == old(usersSlot)
    {
      sessionSlot := Absent;
    }

    method UpdateUserApproval(userId: string, isApproved: bool)
      modifies this
      ensures Users() == SetApproval(old(Users()), userId, isApproved)
      ensures FirstIndex(old(Users()), (u: User) => u.id == userId).None? ==> usersSlot == old(usersSlot)
      ensures sessionSlot == old(sessionSlot)
    {
      var users := Users();
      var userIndex := FirstIndex(users, (u: User) => u.id == userId);
      if userIndex.Some? {
        var i := userIndex.value;
        users := users[i := users[i].(isApproved := isApproved)];
        usersSlot := Stored(users);
      }
    }
  }
}
