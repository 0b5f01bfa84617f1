/**
 * The login/signup dialog (Frontend/Front-end/src/components/AuthModal.jsx):
 * the two forms held as field maps, their change handlers, the signup
 * password checks, the switch to the login tab when the email is already
 * registered, and the loading flag around each call. The sign-in and sign-up
 * calls are made elsewhere; their outcome is a parameter here.
 */
module AuthModal {
  import opened Common

  datatype Tab = LoginTab | SignupTab

  /** What a rejected call carries: `err.response.data.message` and `err.message`. */
  datatype AuthError = AuthError(responseMessage: Option<string>, message: Option<string>)

  /** `err.response?.data?.message || err.message || fallback`. */
  function ErrorText(err: AuthError, fallback: string): (r: string)
    ensures Truthy(err.responseMessage) ==> r == err.responseMessage.value
    ensures !Truthy(err.responseMessage) && Truthy(err.message) ==> r == err.message.value
    ensures !Truthy(err.responseMessage) && !Truthy(err.message) ==> r == fallback
    ensures fallback != "" ==> r != ""
  {
    OrString(OrString(err.responseMessage, err.message), Some(fallback)).value
  }

  const LoginFailedText := "Login failed. Please try again."
  const SignupFailedText := "Signup failed"
  const MismatchText := "Passwords do not match"
  const TooShortText := "Password must be at least 6 characters"
  const RegisteredText := "Email already registered. Please login."
  const MinPasswordLength := 6

  /** The two client-side checks of `handleSignup`, in order: the mismatch
      first, then the length. None when both pass. */
  function SignupCheck(password: string, confirm: string): (r: Option<string>)
    ensures r.None? <==> password == confirm && |password| >= MinPasswordLength
    ensures password != confirm ==> r == Some(MismatchText)
    ensures password == confirm && |password| < MinPasswordLength ==> r == Some(TooShortText)
  {
    if password != confirm then Some(MismatchText)
    else if |password| < MinPasswordLength then Some(TooShortText)
    else None
  }

  /** A short password that also mismatches is reported as a mismatch. */
  lemma MismatchReportedFirst(password: string, confirm: string)
    requires password != confirm && |password| < MinPasswordLength
    ensures SignupCheck(password, confirm) == Some(MismatchText)
  {
  }

  /** `msg.toLowerCase().includes("email") && msg.includes("registered")`:
      the case is ignored for "email" only. */
  predicate SaysAlreadyRegistered(msg: string) {
    Contains(ToLower(msg), "email") && Contains(msg, "registered")
  }

  /** "Email" in any case counts; "Registered" with a capital R does not. */
  lemma RegisteredCaseExamples()
    ensures SaysAlreadyRegistered("EMAIL already registered")
    ensures !SaysAlreadyRegistered("Email Registered")
  {
    var a := "EMAIL already registered";
    assert ToLower(a)[..5] == "email";
    assert OccursAt(ToLower(a), "email", 0);
    assert OccursAt(a, "registered", 14);
    var b := "Email Registered";
    forall i | 0 <= i <= |b| - 10 ensures !OccursAt(b, "registered", i) {
      assert b[i] != 'r';
      assert b[i..i + 10][0] == b[i];
    }
  }

  /** The field names both forms start with. */
  const LoginFields: set<string> := {"email", "password"}
  const SignupFields: set<string> := {"email", "phone", "password", "confirmpassword", "name"}

  /** `{ ...form, [name]: value }`. */
  function SetField(form: map<string, string>, name: string, value: string): (r: map<string, string>)
    ensures name in r && r[name] == value
    ensures forall k :: k != name ==> (k in r <==> k in form)
    ensures forall k :: k != name && k in form ==> r[k] == form[k]
  {
    form[name := value]
  }

  class AuthView {
    var tab: Tab
    var loading: bool
    var login: map<string, string>
    var signup: map<string, string>

    /** Both forms keep every field they start with: the change handlers only
        overwrite or add fields, and the reset after "already registered"
        rebuilds the login form whole. */
    predicate Valid()
      reads this
    {
      LoginFields <= login.Keys && SignupFields <= signup.Keys
    }

    constructor ()
      ensures Valid()
      ensures tab == LoginTab && !loading
      ensures login == map["email" := "", "password" := ""]
      ensures signup == map["email" := "", "phone" := "", "password" := "", "confirmpassword" := "", "name" := ""]
    {
      tab := LoginTab;
      loading := false;
      login := map["email" := "", "password" := ""];
      signup := map["email" := "", "phone" := "", "password" := "", "confirmpassword" := "", "name" := ""];
    }

    /** `handleLoginChange`: only the named field changes. */
    method HandleLoginChange(name: string, value: string)
      requires Valid()
      modifies this
      ensures Valid()
      ensures login == SetField(old(login), name, value)
      ensures signup == old(signup) && tab == old(tab) && loading == old(loading)
    {
      login := SetField(login, name, value);
    }

    /** `handleSignupChange`: only the named field changes. */
    method HandleSignupChange(name: string, value: string)
      requires Valid()
      modifies this
      ensures Valid()
      ensures signup == SetField(old(signup), name, value)
      ensures login == old(login) && tab == old(tab) && loading == old(loading)
    {
      signup := SetField(signup, name, value);
    }

    /** The tab buttons. */
    method SelectTab(t: Tab)
      modifies this
      ensures tab == t
      ensures login == old(login) && signup == old(signup) && loading == old(loading)
    {
      tab := t;
    }

    /** `handleLogin`: `outcome` is what signing in with the login form's email
        and password produced. Returns the toast shown and whether the dialog
        asked to close. */
    method HandleLogin(outcome: Result<(), AuthError>) returns (toast: string, closed: bool)
      requires Valid()
      modifies this
      ensures Valid()
      ensures !loading
      ensures closed <==> outcome.Success?
      ensures outcome.Success? ==> toast == "Login successful!"
      ensures outcome.Failure? ==> toast == ErrorText(outcome.error, LoginFailedText)
      ensures tab == old(tab) && login == old(login) && signup == old(signup)
    {
      loading := true;
      match outcome {
        case Success(_) =>
          toast := "Login successful!";
          closed := true;
        case Failure(err) =>
          toast := ErrorText(err, LoginFailedText);
          closed := false;
      }
      loading := false;
    }

    /** `handleSignup`: the two checks, then the call. `outcome` is what the
        call would produce; `called` says whether it was made. */
    method HandleSignup(outcome: Result<(), AuthError>) returns (called: bool, toast: string, closed: bool)
      requires Valid()
      modifies this
      ensures Valid()
      ensures called <==> SignupCheck(old(signup)["password"], old(signup)["confirmpassword"]).None?
      ensures !called ==>
        toast == SignupCheck(old(signup)["password"], old(signup)["confirmpassword"]).value
        && !closed && loading == old(loading) && tab == old(tab) && login == old(login)
      ensures called ==> !loading
      ensures closed <==> called && outcome.Success?
      ensures called && outcome.Success? ==> toast == "Signup successful!" && tab == old(tab) && login == old(login)
      ensures called && outcome.Failure? && SaysAlreadyRegistered(ErrorText(outcome.error, SignupFailedText)) ==>
        toast == RegisteredText && tab == LoginTab && login == map["email" := old(signup)["email"], "password" := ""]
      ensures called && outcome.Failure? && !SaysAlreadyRegistered(ErrorText(outcome.error, SignupFailedText)) ==>
        toast == ErrorText(outcome.error, SignupFailedText) && tab == old(tab) && login == old(login)
      ensures signup == old(signup)
    {
      var problem := SignupCheck(signup["password"], signup["confirmpassword"]);
      if problem.Some? {
        return false, problem.value, false;
      }
      called := true;
      loading := true;
      match outcome {
        case Success(_) =>
          toast := "Signup successful!";
          closed := true;
        case Failure(err) =>
          var msg := ErrorText(err, SignupFailedText);
          closed := false;
          if SaysAlreadyRegistered(msg) {
            toast := RegisteredText;
            tab := LoginTab;
            login := map["email" := signup["email"], "password" := ""];
          } else {
            toast := msg;
          }
      }
      loading := false;
    }
  }
}
