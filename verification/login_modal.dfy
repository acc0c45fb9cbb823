/**
 * The sign-in dialog: two fields whose edits clear the error, a two-step
 * validation chain (both fields filled, then an e-mail address or the
 * literal "admin"), and a submit that calls `login` only when both checks
 * pass and empties the fields after a successful sign-in.
 */
module LoginModal {
  import opened Wrappers
  import opened Text
  import opened Checks
  import opened ApiErrors

  const FieldsMissing := "Por favor, preencha todos os campos"
  const EmailInvalid := "Por favor, insira um email válido"
  const LoginFailed := "Erro ao fazer login. Tente novamente."

  /** The checks of `handleSubmit`, in order, each with its message. */
  function LoginChecks(email: string, password: string): seq<Check> {
    [ Check(email != "" && password != "", FieldsMissing),
      Check(ValidEmail(email) || email == "admin", EmailInvalid) ]
  }

  /**
   * The message `handleSubmit` shows, or None when it goes on to `login`:
   * None exactly when both fields are filled and the e-mail field holds an
   * address the pattern accepts or exactly "admin".
   */
  function Validate(email: string, password: string): (r: Option<string>)
    ensures r == None <==> email != "" && password != "" && (ValidEmail(email) || email == "admin")
    ensures email == "" || password == "" ==> r == Some(FieldsMissing)
    ensures email != "" && password != "" && !ValidEmail(email) && email != "admin" ==> r == Some(EmailInvalid)
  {
    LoginChecksOrder(email, password);
    FirstFailure(LoginChecks(email, password))
  }

  lemma LoginChecksOrder(email: string, password: string)
    ensures email == "" || password == "" ==> FirstFailure(LoginChecks(email, password)) == Some(FieldsMissing)
    ensures email != "" && password != "" && !ValidEmail(email) && email != "admin" ==>
              FirstFailure(LoginChecks(email, password)) == Some(EmailInvalid)
  {
    var checks := LoginChecks(email, password);
    if email == "" || password == "" {
      FirstFailureAt(checks, 0);
    } else if !ValidEmail(email) && email != "admin" {
      FirstFailureAt(checks, 1);
    }
  }

  /** "admin" has no '@', so only the explicit exception lets it through. */
  lemma AdminIsNotAnEmail(password: string)
    requires password != ""
    ensures !ValidEmail("admin")
    ensures Validate("admin", password) == None
  {
    if ValidEmail("admin") {
      ValidEmailShape("admin");
      CountAbsent('@', "admin");
    }
  }

  /** What `login(email, password)` is called with. */
  datatype Credentials = Credentials(email: string, password: string)

  class Dialog {
    var email: string
    var password: string
    var showPassword: bool
    var error: string

    constructor()
      ensures email == "" && password == "" && !showPassword && error == ""
    {
      email := "";
      password := "";
      showPassword := false;
      error := "";
    }

    /** Editing the e-mail field stores the text and clears the error. */
    method SetEmail(value: string)
      modifies this
      ensures email == value && error == ""
      ensures password == old(password) && showPassword == old(showPassword)
    {
      email := value;
      error := "";
    }

    /** Editing the password field stores the text and clears the error. */
    method SetPassword(value: string)
      modifies this
      ensures password == value && error == ""
      ensures email == old(email) && showPassword == old(showPassword)
    {
      password := value;
      error := "";
    }

    /** The eye button flips the password's visibility. */
    method TogglePassword()
      modifies this
      ensures showPassword == !old(showPassword)
      ensures email == old(email) && password == old(password) && error == old(error)
    {
      showPassword := !showPassword;
    }

    /**
     * `handleSubmit`, with `loggedIn` the settled outcome of `login`: the first
     * failing check sets the error and `login` is not called; otherwise `login`
     * gets the fields as typed, a success empties them and closes the dialog,
     * and a rejection shows the error's message or the generic one.
     */
    method HandleSubmit(loggedIn: Outcome<()>) returns (sent: Option<Credentials>, closed: bool)
      modifies this
      ensures Validate(old(email), old(password)).Some? ==>
                sent == None && !closed && error == Validate(old(email), old(password)).value
                && email == old(email) && password == old(password)
      ensures Validate(old(email), old(password)) == None ==> sent == Some(Credentials(old(email), old(password)))
      ensures Validate(old(email), old(password)) == None && loggedIn.Returns? ==>
                closed && email == "" && password == "" && error == ""
      ensures Validate(old(email), old(password)) == None && loggedIn.Throws? ==>
                !closed && email == old(email) && password == old(password)
                && error == MessageOr(loggedIn.reason, LoginFailed)
      ensures showPassword == old(showPassword)
    {
      error := "";
      var failure := Validate(email, password);
      if failure.Some? {
        error := failure.value;
        return None, false;
      }
      sent := Some(Credentials(email, password));
      match loggedIn
      case Returns(_) =>
        email := "";
        password := "";
        closed := true;
      case Throws(reason) =>
        error := MessageOr(reason, LoginFailed);
        closed := false;
    }
  }
}
