/** The login form: two fields, checked before anything is submitted. */
module Login {
  import opened Wrappers
  import opened Text

  /** The error record, `{ username?: string; password?: string }`. */
  datatype LoginErrors = LoginErrors(username: Option<string>, password: Option<string>)

  /** The messages `validate` stores. */
  const UsuarioRequired := "Usuario requerido"
  const ContrasenaRequired := "Contraseña requerida"

  const NoErrors := LoginErrors(None, None)

  /** The record `validate` builds: a `username` entry for a blank username (empty once
      trimmed), a `password` entry for an empty password (not trimmed); no other key exists. */
  function ErrorsOf(username: string, password: string): (e: LoginErrors)
    ensures e.username.Some? <==> IsBlank(username)
    ensures e.password.Some? <==> password == ""
    ensures e == NoErrors <==> !IsBlank(username) && password != ""
  {
    LoginErrors(
      if IsBlank(username) then Some(UsuarioRequired) else None,
      if password == "" then Some(ContrasenaRequired) else None)
  }

  class LoginScreen {
    var username: string
    var password: string
    var errors: LoginErrors

    constructor ()
      ensures username == "" && password == "" && errors == NoErrors
    {
      username, password, errors := "", "", NoErrors;
    }

    /** `validate`: fills the record step by step, a message for a blank username and one for
        an empty password, and stores it; the form is valid exactly when no key was set. */
    method Validate() returns (ok: bool)
      modifies this`errors
      ensures errors == ErrorsOf(username, password)
      ensures ok <==> errors == NoErrors
      ensures ok <==> !IsBlank(username) && password != ""
    {
      var e := NoErrors;
      if IsBlank(username) {
        e := e.(username := Some(UsuarioRequired));
      }
      if password == "" {
        e := e.(password := Some(ContrasenaRequired));
      }
      errors := e;
      ok := e == NoErrors;
    }

    /** `handleSubmit`: an invalid form returns right after validation, which has stored its
        record; the result says whether the submit went on. What follows in the source is a
        placeholder log line. */
    method Submit() returns (proceeds: bool)
      modifies this`errors
      ensures errors == ErrorsOf(username, password)
      ensures proceeds <==> !IsBlank(username) && password != ""
      ensures proceeds <==> errors == NoErrors
    {
      var ok := Validate();
      if !ok {
        return false;
      }
      proceeds := true;
    }
  }

  /** A non-empty password of whitespace alone gets no error, because only the username is trimmed. */
  method WhitespacePasswordAccepted(screen: LoginScreen)
    requires screen.password != "" && IsBlank(screen.password)
    modifies screen
    ensures screen.errors.password.None?
  {
    var ok := screen.Validate();
  }
}
