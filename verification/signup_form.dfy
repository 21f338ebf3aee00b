/**
 * The pre-network checks of the sign-up form
 * (src/components/auth/SignupForm.tsx, handleSubmit).  They restate the
 * validators inline, with the same limits but without the upper bound on
 * the username's length.
 */
module SignupForm {
  import opened Wrappers
  import opened Validations

  /** The first failing check's message, or None when the form may go on to the network. */
  function SignupCheck(email: string, password: string, username: string): (r: Option<string>)
    ensures email == "" || password == "" || username == "" ==> r == Some("Please fill in all fields")
    ensures r.None? <==>
      && email != "" && EmailPattern(email)
      && JsLength(password) >= 6
      && JsLength(username) >= 3 && UsernamePattern(username)
  {
    if email == "" || password == "" || username == "" then Some("Please fill in all fields")
    else if !EmailTest(email) then Some("Please enter a valid email address")
    else if JsLength(password) < 6 then Some("Password must be at least 6 characters long")
    else if JsLength(username) < 3 then Some("Username must be at least 3 characters long")
    else if !UsernamePattern(username) then Some("Username can only contain letters, numbers, and underscores")
    else None
  }

  /** The checks run in a fixed order; each one is reported only when everything before it passed. */
  lemma SignupChecksInOrder(email: string, password: string, username: string)
    requires email != "" && password != "" && username != ""
    ensures !EmailPattern(email) ==> SignupCheck(email, password, username) == Some("Please enter a valid email address")
    ensures EmailPattern(email) && JsLength(password) < 6 ==>
      SignupCheck(email, password, username) == Some("Password must be at least 6 characters long")
    ensures EmailPattern(email) && JsLength(password) >= 6 && JsLength(username) < 3 ==>
      SignupCheck(email, password, username) == Some("Username must be at least 3 characters long")
  {
  }

  /** Passing the form means passing the email and password validators, and the username one up to its length cap. */
  lemma SignupAgreesWithValidators(email: string, password: string, username: string)
    ensures SignupCheck(email, password, username).None? <==>
      && ValidateEmail(email).success && ValidatePassword(password).success
      && MinUsernameLength <= |username| && UsernamePattern(username)
  {
  }

  /** The form accepts a well-formed username longer than 20 characters, which validateUsername rejects. */
  lemma SignupHasNoUsernameCap(email: string, password: string, username: string)
    requires ValidateEmail(email).success && ValidatePassword(password).success
    requires UsernamePattern(username) && |username| > MaxUsernameLength
    ensures SignupCheck(email, password, username).None?
    ensures !ValidateUsername(username).success
  {
    SignupAgreesWithValidators(email, password, username);
  }

  /** The form's `loading` and `error` cells; `loadingLog` records every value written to `loading`. */
  class SignupForm {
    var loading: bool
    var error: string
    ghost var loadingLog: seq<bool>

    constructor ()
      ensures !loading && error == "" && loadingLog == []
    {
      loading := false;
      error := "";
      loadingLog := [];
    }

    /**
     * handleSubmit up to the first network call.  A failed check sets its
     * message, lowers `loading` and stops: `proceeds` is false and no
     * request is made.
     */
    method HandleSubmit(email: string, password: string, username: string) returns (proceeds: bool)
      modifies this
      ensures proceeds <==> SignupCheck(email, password, username).None?
      ensures !proceeds ==>
        error == SignupCheck(email, password, username).value
        && !loading && loadingLog == old(loadingLog) + [true, false]
      ensures proceeds ==> error == "" && loading && loadingLog == old(loadingLog) + [true]
    {
      loading := true;
      loadingLog := loadingLog + [true];
      error := "";
      var failure: Option<string> := None;
      if email == "" || password == "" || username == "" {
        failure := Some("Please fill in all fields");
      } else if !EmailTest(email) {
        failure := Some("Please enter a valid email address");
      } else if JsLength(password) < 6 {
        failure := Some("Password must be at least 6 characters long");
      } else if JsLength(username) < 3 {
        failure := Some("Username must be at least 3 characters long");
      } else if !UsernamePattern(username) {
        failure := Some("Username can only contain letters, numbers, and underscores");
      }
      if failure.Some? {
        error := failure.value;
        loading := false;
        loadingLog := loadingLog + [false];
        return false;
      }
      proceeds := true;
    }
  }
}
