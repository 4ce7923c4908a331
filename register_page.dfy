/** The sign-up form (pages/RegisterPage.tsx). */
module RegisterPage {
  import opened Wrappers
  import opened AuthService
  import opened UseToast
  import opened LoginPage
  import UseAuth

  const MISMATCH_MESSAGE: string := "As senhas não coincidem."
  const TOO_SHORT_MESSAGE: string := "A senha deve ter pelo menos 6 caracteres."
  const REGISTERED_MESSAGE: string := "Cadastro realizado com sucesso! Aguarde a aprovação do administrador."
  const MIN_PASSWORD_LENGTH: nat := 6

  /** The form checks, in order: the confirmation must repeat the password,
      then the password must have at least six characters. */
  function Validate(password: string, confirmPassword: string): (r: Option<string>)
    ensures r.None? <==> password == confirmPassword && |password| >= MIN_PASSWORD_LENGTH
    ensures password != confirmPassword ==> r == Some(MISMATCH_MESSAGE)
    ensures password == confirmPassword && |password| < MIN_PASSWORD_LENGTH ==> r == Some(TOO_SHORT_MESSAGE)
  {
    if password != confirmPassword then Some(MISMATCH_MESSAGE)
    else if |password| < MIN_PASSWORD_LENGTH then Some(TOO_SHORT_MESSAGE)
    else None
  }

  /** Every password the form lets through can sign in once registered. */
  lemma AcceptedPasswordSignsIn(users: seq<User>, email: string, password: string, nonce: string)
    requires Validate(password, password).None? && !EmailTaken(users, email)
    ensures |password| >= MIN_PASSWORD_LENGTH
    ensures Authenticate(users + [NewUser(email, password, nonce)], email, password).Success?
  {
    RegisterThenLogin(users, email, password, nonce, nonce);
  }

  class RegisterPageState {
    var email: string
    var password: string
    var confirmPassword: string
    var isLoading: bool
    var navigatedTo: Option<Route>
    const auth: UseAuth.AuthProvider

    constructor(auth: UseAuth.AuthProvider, email: string, password: string, confirmPassword: string)
      ensures this.auth == auth && this.email == email
      ensures this.password == password && this.confirmPassword == confirmPassword
      ensures !isLoading && navigatedTo == None
    {
      this.auth := auth;
      this.email := email;
      this.password := password;
      this.confirmPassword := confirmPassword;
      isLoading := false;
      navigatedTo := None;
    }

    /** `handleSubmit`: a failed check is reported without registering; a
        passing form registers once and goes to the sign-in page, or shows the
        refusal and stays; loading ends false either way. */
    method HandleSubmit(nonce: string) returns (notices: seq<Notice>)
      modifies this, auth.store
      ensures email == old(email) && password == old(password) && confirmPassword == old(confirmPassword)
      ensures auth.currentUser == old(auth.currentUser) && auth.store.sessionSlot == old(auth.store.sessionSlot)
      ensures Validate(password, confirmPassword).Some? ==>
        && notices == [Notice(Validate(password, confirmPassword).value, ErrorToast)]
        && auth.store.usersSlot == old(auth.store.usersSlot)
        && navigatedTo == old(navigatedTo) && isLoading == old(isLoading)
      ensures Validate(password, confirmPassword).None? && EmailTaken(old(auth.store.Users()), email) ==>
        && notices == [Notice(Message(DuplicateEmail), ErrorToast)]
        && auth.store.Users() == old(auth.store.Users())
        && navigatedTo == old(navigatedTo) && !isLoading
      ensures Validate(password, confirmPassword).None? && !EmailTaken(old(auth.store.Users()), email) ==>
        && notices == [Notice(REGISTERED_MESSAGE, SuccessToast)]
        && auth.store.Users() == old(auth.store.Users()) + [NewUser(email, password, nonce)]
        && navigatedTo == Some(LoginRoute) && !isLoading
    {
      var invalid := Validate(password, confirmPassword);
      if invalid.Some? {
        return [Notice(invalid.value, ErrorToast)];
      }
      isLoading := true;
      var r := auth.Register(email, password, nonce);
      if r.Success? {
        notices := [Notice(REGISTERED_MESSAGE, SuccessToast)];
        navigatedTo := Some(LoginRoute);
      } else {
        notices := [Notice(Message(r.error), ErrorToast)];
      }
      isLoading := false;
    }
  }
}
