/** The login form: the mock credential rule and the submit handler. */
module Login {
  import opened Text
  import opened Toasts

  datatype Verdict = MissingInformation | Accepted | Rejected

  /** The mock rule: both fields must be non-empty (checked first, before any
      delay), then the email must contain '@' and the password hold at least
      six characters. Nothing is trimmed. */
  function CheckCredentials(email: string, password: string): (v: Verdict)
    ensures v == MissingInformation <==> email == "" || password == ""
    ensures v == Accepted <==> email != "" && password != "" && '@' in email && |password| >= 6
    ensures v == Rejected <==> email != "" && password != "" && !('@' in email && |password| >= 6)
  {
    ContainsChar(email, '@');
    if email == "" || password == "" then MissingInformation
    else if Contains(email, "@") && |password| >= 6 then Accepted
    else Rejected
  }

  const MissingInformationToast: Toast :=
    Toast("Missing Information", "Please enter both email and password.", true)
  const LoginSuccessToast: Toast :=
    Toast("Login Successful! \U{2705}", "Welcome back to CODE.AI", false)
  const LoginFailedToast: Toast :=
    Toast("Login Failed \U{274C}", "Invalid email or password. Please try again.", true)

  /** The form's state. The handler is split at its `await`: `HandleLogin` runs up
      to the delay and `ResumeLogin` runs after it, on the credentials the
      handler's closure captured (`submittedEmail`, `submittedPassword`).
      `location` is where `navigate` last sent the browser. */
  class LoginForm {
    var email: string
    var password: string
    var isLoading: bool
    var toast: Option<Toast>
    var location: Option<string>
    var submittedEmail: string
    var submittedPassword: string

    constructor ()
      ensures email == "" && password == "" && !isLoading
      ensures toast == None && location == None
      ensures submittedEmail == "" && submittedPassword == ""
    {
      email, password := "", "";
      isLoading := false;
      toast, location := None, None;
      submittedEmail, submittedPassword := "", "";
    }

    /** `handleLogin` up to its delay. It returns whether the handler is now
        suspended; with a field empty it only raises the toast. */
    method HandleLogin() returns (suspended: bool)
      modifies this
      ensures suspended <==> CheckCredentials(old(email), old(password)) != MissingInformation
      ensures !suspended ==>
        && toast == Some(MissingInformationToast)
        && isLoading == old(isLoading) && location == old(location)
        && submittedEmail == old(submittedEmail) && submittedPassword == old(submittedPassword)
      ensures suspended ==>
        && isLoading && toast == old(toast) && location == old(location)
        && submittedEmail == old(email) && submittedPassword == old(password)
      ensures email == old(email) && password == old(password)
    {
      if email == "" || password == "" {
        toast := Some(MissingInformationToast);
        return false;
      }
      isLoading := true;
      submittedEmail, submittedPassword := email, password;
      return true;
    }

    /** `handleLogin` after its delay: navigate to the dashboard on accepted
        credentials, raise the failure toast otherwise, and stop loading. */
    method ResumeLogin()
      requires isLoading
      requires submittedEmail != "" && submittedPassword != ""
      modifies this
      ensures !isLoading
      ensures CheckCredentials(submittedEmail, submittedPassword) == Accepted ==>
        toast == Some(LoginSuccessToast) && location == Some("/dashboard")
      ensures CheckCredentials(submittedEmail, submittedPassword) == Rejected ==>
        toast == Some(LoginFailedToast) && location == old(location)
      ensures email == old(email) && password == old(password)
      ensures submittedEmail == old(submittedEmail) && submittedPassword == old(submittedPassword)
    {
      if CheckCredentials(submittedEmail, submittedPassword) == Accepted {
        toast := Some(LoginSuccessToast);
        location := Some("/dashboard");
      } else {
        toast := Some(LoginFailedToast);
      }
      isLoading := false;
    }
  }

  /** The whole submission when the delay passes without another event: the
      form ends idle, at the dashboard exactly on accepted credentials. */
  method SubmitAndWait(form: LoginForm)
    requires !form.isLoading
    modifies form
    ensures !form.isLoading
    ensures CheckCredentials(old(form.email), old(form.password)) == Accepted ==>
      form.location == Some("/dashboard") && form.toast == Some(LoginSuccessToast)
    ensures CheckCredentials(old(form.email), old(form.password)) == Rejected ==>
      form.location == old(form.location) && form.toast == Some(LoginFailedToast)
    ensures CheckCredentials(old(form.email), old(form.password)) == MissingInformation ==>
      form.location == old(form.location) && form.toast == Some(MissingInformationToast)
  {
    var suspended := form.HandleLogin();
    if suspended {
      form.ResumeLogin();
    }
  }
}
