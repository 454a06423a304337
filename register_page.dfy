/**
 * The sign-up form (client/src/pages/auth/Register.js): the password
 * confirmation check and the error message shown when sign-up fails.
 */
module RegisterPage {
  import opened Wrappers
  import opened Listing

  const PasswordsDoNotMatch: string := "Passwords do not match"
  const RegistrationFailed: string := "Registration failed"

  /** The form's initial `userData`: four empty fields. */
  function InitialUserData(): (f: Form)
    ensures f.Keys == {"name", "email", "password", "confirmPassword"}
    ensures forall k :: k in f ==> f[k] == ""
  {
    map["name" := "", "email" := "", "password" := "", "confirmPassword" := ""]
  }

  /** How the awaited `register(userData)` call ended. */
  datatype RegisterCall =
    | Accepted
    | Rejected(serverMessage: Option<string>)   // `err.response?.data?.message`, `None` when any link is missing

  /** `err.response?.data?.message || 'Registration failed'`. */
  function FailureMessage(serverMessage: Option<string>): (e: string)
    ensures e != ""
    ensures serverMessage.Some? && serverMessage.value != "" ==> e == serverMessage.value
    ensures serverMessage.None? || serverMessage.value == "" ==> e == RegistrationFailed
  {
    if serverMessage.Some? && serverMessage.value != "" then serverMessage.value else RegistrationFailed
  }

  /** `userData.password !== userData.confirmPassword`, reading missing keys as `undefined`. */
  predicate PasswordsDiffer(userData: Form): (b: bool)
    ensures "password" in userData && "confirmPassword" in userData ==>
      (b <==> userData["password"] != userData["confirmPassword"])
    ensures ("password" in userData) != ("confirmPassword" in userData) ==> b
    ensures "password" !in userData && "confirmPassword" !in userData ==> !b
  {
    Get(userData, "password") != Get(userData, "confirmPassword")
  }

  /** The form's `useState` fields. */
  class RegisterForm {
    var userData: Form
    var error: string

    constructor ()
      ensures userData == InitialUserData() && error == ""
    {
      userData := InitialUserData();
      error := "";
    }

    /** `handleChange`: only the named field of `userData` changes. */
    method HandleChange(name: string, value: string)
      modifies this`userData
      ensures userData == SetField(old(userData), name, value)
    {
      userData := SetField(userData, name, value);
    }

    /**
     * `handleSubmit`. Returns the payload handed to `register`, or `None`
     * when the passwords differ and `register` is never called; `outcome` is
     * how that call ends when it is made. A successful call leaves `error` as
     * it was (navigation happens elsewhere).
     */
    method HandleSubmit(outcome: RegisterCall) returns (sent: Option<Form>)
      modifies this`error
      ensures PasswordsDiffer(userData) ==> sent == None && error == PasswordsDoNotMatch
      ensures !PasswordsDiffer(userData) ==> sent == Some(userData)
      ensures !PasswordsDiffer(userData) && outcome.Accepted? ==> error == old(error)
      ensures !PasswordsDiffer(userData) && outcome.Rejected? ==> error == FailureMessage(outcome.serverMessage)
    {
      if PasswordsDiffer(userData) {
        error := PasswordsDoNotMatch;
        return None;
      }
      sent := Some(userData);
      if outcome.Rejected? {
        error := FailureMessage(outcome.serverMessage);
      }
    }
  }

  /** A form whose two password fields were last set to the same text is sent; to different texts, it is not. */
  lemma ConfirmationDecides(userData: Form, p: string, q: string)
    ensures !PasswordsDiffer(SetField(SetField(userData, "password", p), "confirmPassword", q)) <==> p == q
  {
    var f := SetField(SetField(userData, "password", p), "confirmPassword", q);
    assert Get(f, "password") == Some(p) && Get(f, "confirmPassword") == Some(q);
  }
}
