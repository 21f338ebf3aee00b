/**
 * The log-in form (src/components/auth/LoginForm.tsx, handleSubmit): two
 * pre-network checks, then the sign-in answer, which is a parameter, and
 * the redirect target.
 */
module LoginForm {
  import opened Wrappers
  import opened Validations

  /** The first failing check's message, or None when the form may sign in. */
  function LoginCheck(email: string, password: string): (r: Option<string>)
    ensures email == "" || password == "" ==> r == Some("Please fill in all fields")
    ensures r.None? <==> password != "" && ValidateEmail(email).success
    ensures email != "" && password != "" && r.Some? ==> r == Some("Please enter a valid email address")
  {
    if email == "" || password == "" then Some("Please fill in all fields")
    else if !EmailTest(email) then Some("Please enter a valid email address")
    else None
  }

  /** `searchParams.get('redirectTo') || '/dashboard'`: an absent or empty parameter falls back. */
  function RedirectTarget(redirectTo: Option<string>): (target: string)
    ensures target != ""
    ensures redirectTo.Some? && redirectTo.value != "" ==> target == redirectTo.value
    ensures redirectTo.None? || redirectTo.value == "" ==> target == "/dashboard"
  {
    if redirectTo.Some? && redirectTo.value != "" then redirectTo.value else "/dashboard"
  }

  /** What `signInWithPassword` did: succeeded, answered with an error, or threw. */
  datatype SignInResult = SignedIn | AuthError(message: string) | Threw

  class LoginForm {
    var loading: bool
    var error: string
    var redirect: Option<string>
    ghost var loadingLog: seq<bool>

    constructor ()
      ensures !loading && error == "" && redirect == None && loadingLog == []
    {
      loading := false;
      error := "";
      redirect := None;
      loadingLog := [];
    }

    /** handleSubmit up to the sign-in call: a failed check sets its message, lowers `loading`, and stops. */
    method HandleSubmit(email: string, password: string) returns (proceeds: bool)
      modifies this`loading, this`error, this`loadingLog
      ensures proceeds <==> LoginCheck(email, password).None?
      ensures !proceeds ==>
        error == LoginCheck(email, password).value && !loading && loadingLog == old(loadingLog) + [true, false]
      ensures proceeds ==> error == "" && loading && loadingLog == old(loadingLog) + [true]
    {
      loading := true;
      loadingLog := loadingLog + [true];
      error := "";
      if email == "" || password == "" {
        error := "Please fill in all fields";
        loading := false;
        loadingLog := loadingLog + [false];
        return false;
      }
      if !EmailTest(email) {
        error := "Please enter a valid email address";
        loading := false;
        loadingLog := loadingLog + [false];
        return false;
      }
      proceeds := true;
    }

    /** The rest of handleSubmit: report the sign-in error or redirect; `loading` is lowered in every case. */
    method FinishSignIn(result: SignInResult, redirectTo: Option<string>)
      modifies this`loading, this`error, this`redirect, this`loadingLog
      ensures !loading && loadingLog == old(loadingLog) + [false]
      ensures result == SignedIn ==> redirect == Some(RedirectTarget(redirectTo)) && error == old(error)
      ensures result.AuthError? ==> error == result.message && redirect == old(redirect)
      ensures result == Threw ==> error == "An unexpected error occurred" && redirect == old(redirect)
    {
      match result {
        case SignedIn =>
          redirect := Some(RedirectTarget(redirectTo));
        case AuthError(message) =>
          error := message;
        case Threw =>
          error := "An unexpected error occurred";
      }
      loading := false;
      loadingLog := loadingLog + [false];
    }
  }
}
