/** The administration panel (pages/AdminPage.tsx): the list of the other
    accounts and the approval switch of each. */
module AdminPage {
  import opened Wrappers
  import opened AuthService
  import opened UseToast
  import UseAuth

  const APPROVED_LABEL: string := "Aprovado"
  const PENDING_LABEL: string := "Pendente"

  /** The status badge of an account. */
  function StatusLabel(isApproved: bool): (r: string)
    ensures r == APPROVED_LABEL <==> isApproved
    ensures r == PENDING_LABEL <==> !isApproved
  {
    if isApproved then APPROVED_LABEL else PENDING_LABEL
  }

  /** The notice after an approval change. */
  function ApprovalMessage(email: string, isApproved: bool): string
  {
    "Usuário " + email + " " + (if isApproved then "aprovado" else "reprovado") + "."
  }

  /** No two accounts share an id. */
  predicate IdsUnique(users: seq<User>)
  {
    forall i, j | 0 <= i < j < |users| :: users[i].id != users[j].id
  }

  /** `filter(u => u.id !== currentUser?.id)`: with nobody signed in the
      comparison is with `undefined`, so every account stays. */
  function Others(users: seq<User>, currentId: Option<string>): (r: seq<User>)
    ensures |r| <= |users|
  {
    if users == [] then []
    else
      (if currentId.Some? && users[0].id == currentId.value then [] else [users[0]])
      + Others(users[1..], currentId)
  }

  /** The listed accounts are exactly the stored ones other than the signed-in
      user; with nobody signed in the whole list is shown in order. */
  lemma {:induction false} OthersMembers(users: seq<User>, currentId: Option<string>)
    ensures forall u :: u in Others(users, currentId) <==>
      u in users && (currentId.None? || u.id != currentId.value)
    ensures currentId.None? ==> Others(users, currentId) == users
  {
    if users != [] {
      OthersMembers(users[1..], currentId);
      assert users == [users[0]] + users[1..];
      forall u ensures u in users <==> u == users[0] || u in users[1..] {
      }
    }
  }

  /** Whether `filter` keeps an account. */
  predicate Listed(u: User, currentId: Option<string>)
  {
    currentId.None? || u.id != currentId.value
  }

  /** The filter goes through the stored list in order: the listing of two
      stretches is the listing of the first followed by that of the second. */
  lemma {:induction false} OthersAppend(a: seq<User>, b: seq<User>, currentId: Option<string>)
    ensures Others(a + b, currentId) == Others(a, currentId) + Others(b, currentId)
  {
    if a == [] {
      assert a + b == b;
    } else {
      var head := if currentId.Some? && a[0].id == currentId.value then [] else [a[0]];
      assert (a + b)[0] == a[0];
      assert (a + b)[1..] == a[1..] + b;
      assert Others(a + b, currentId) == head + Others(a[1..] + b, currentId);
      assert Others(a, currentId) == head + Others(a[1..], currentId);
      OthersAppend(a[1..], b, currentId);
    }
  }

  /** Every listed account keeps its multiplicity in the stored list, and the
      signed-in one is not listed at all. */
  lemma {:induction false} OthersCount(users: seq<User>, currentId: Option<string>, u: User)
    ensures multiset(Others(users, currentId))[u] == if Listed(u, currentId) then multiset(users)[u] else 0
  {
    if users != [] {
      OthersCount(users[1..], currentId, u);
      assert users == [users[0]] + users[1..];
    }
  }

  /** `prevUsers.map(u => u.id === user.id ? { ...u, isApproved } : u)`. */
  function ApproveAll(users: seq<User>, userId: string, isApproved: bool): (r: seq<User>)
    ensures |r| == |users|
    ensures forall k | 0 <= k < |users| ::
      r[k] == if users[k].id == userId then users[k].(isApproved := isApproved) else users[k]
  {
    if users == [] then []
    else
      [if users[0].id == userId then users[0].(isApproved := isApproved) else users[0]]
      + ApproveAll(users[1..], userId, isApproved)
  }

  /** With unique ids, the stored update of the first match and the page's
      update of every match agree. */
  lemma SetApprovalIsApproveAll(users: seq<User>, userId: string, isApproved: bool)
    requires IdsUnique(users)
    ensures SetApproval(users, userId, isApproved) == ApproveAll(users, userId, isApproved)
  {
    var p := (u: User) => u.id == userId;
    match FirstIndex(users, p)
    case None =>
      assert forall k | 0 <= k < |users| :: !p(users[k]);
    case Some(i) =>
      assert p(users[i]);
      var r := SetApproval(users, userId, isApproved);
      assert r == users[i := users[i].(isApproved := isApproved)];
      forall k | 0 <= k < |users| && k != i ensures users[k].id != userId {
      }
  }

  /** Hiding the signed-in user and approving commute: approval keeps ids. */
  lemma {:induction false} OthersApproveAll(users: seq<User>, currentId: Option<string>, userId: string,
                                            isApproved: bool)
    ensures Others(ApproveAll(users, userId, isApproved), currentId)
      == ApproveAll(Others(users, currentId), userId, isApproved)
  {
    if users != [] {
      var a := ApproveAll(users, userId, isApproved);
      assert a[1..] == ApproveAll(users[1..], userId, isApproved);
      OthersApproveAll(users[1..], currentId, userId, isApproved);
      var head := if currentId.Some? && users[0].id == currentId.value then [] else [users[0]];
      assert ApproveAll(head + Others(users[1..], currentId), userId, isApproved)
        == ApproveAll(head, userId, isApproved) + ApproveAll(Others(users[1..], currentId), userId, isApproved)
      by {
        ApproveAllAppend(head, Others(users[1..], currentId), userId, isApproved);
      }
    }
  }

  lemma ApproveAllAppend(a: seq<User>, b: seq<User>, userId: string, isApproved: bool)
    ensures ApproveAll(a + b, userId, isApproved) == ApproveAll(a, userId, isApproved) + ApproveAll(b, userId, isApproved)
  {
    var l := ApproveAll(a + b, userId, isApproved);
    var r := ApproveAll(a, userId, isApproved) + ApproveAll(b, userId, isApproved);
    assert |l| == |r|;
    forall k | 0 <= k < |l| ensures l[k] == r[k] {
      if k < |a| {
        assert (a + b)[k] == a[k];
      } else {
        assert (a + b)[k] == b[k - |a|];
      }
    }
  }

  /** The id `currentUser?.id` compares with. */
  function CurrentId(user: Option<User>): Option<string>
  {
    if user.Some? then Some(user.value.id) else None
  }

  class AdminPageState {
    var users: seq<User>
    var loading: bool
    const auth: UseAuth.AuthProvider

    /** The first render: nothing listed yet, loading. */
    constructor(auth: UseAuth.AuthProvider)
      ensures this.auth == auth && users == [] && loading
    {
      this.auth := auth;
      users := [];
      loading := true;
    }

    /** The list shows the stored accounts other than the signed-in user. */
    predicate Consistent()
      reads this, auth, auth.store
    {
      users == Others(auth.store.Users(), CurrentId(auth.currentUser))
    }

    /** `fetchUsers`: lists every stored account but the signed-in one and stops loading. */
    method FetchUsers()
      modifies this
      ensures users == Others(auth.store.Users(), CurrentId(auth.currentUser)) && !loading
      ensures Consistent()
    {
      loading := true;
      users := Others(auth.store.Users(), CurrentId(auth.currentUser));
      loading := false;
    }

    /** `handleApprovalChange`: stores the flag on that account, updates the
        listed copy, and reports it. With unique ids the list stays the
        stored accounts other than the signed-in user. */
    method HandleApprovalChange(user: User, isApproved: bool) returns (notices: seq<Notice>)
      modifies this, auth.store
      ensures auth.store.Users() == SetApproval(old(auth.store.Users()), user.id, isApproved)
      ensures auth.store.sessionSlot == old(auth.store.sessionSlot)
      ensures users == ApproveAll(old(users), user.id, isApproved) && loading == old(loading)
      ensures notices == [Notice(ApprovalMessage(user.email, isApproved), SuccessToast)]
      ensures old(Consistent()) && IdsUnique(old(auth.store.Users())) ==> Consistent()
    {
      ghost var stored := auth.store.Users();
      auth.store.UpdateUserApproval(user.id, isApproved);
      users := ApproveAll(users, user.id, isApproved);
      notices := [Notice(ApprovalMessage(user.email, isApproved), SuccessToast)];
      if IdsUnique(stored) {
        SetApprovalIsApproveAll(stored, user.id, isApproved);
        OthersApproveAll(stored, CurrentId(auth.currentUser), user.id, isApproved);
      }
    }
  }
}
