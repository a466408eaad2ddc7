/**
 * The login and signup forms and the session listener of auth.js: field checks done before
 * any request, the message shown for an authentication error code, the enabled state of the
 * two buttons and the clearing of the task list on sign-out.
 */
module Auth {
  import opened Wrappers
  import opened JsText
  import opened Tasks
  import App

  const FillAllFields: string := "Please fill in all fields"
  const PasswordTooShort: string := "Password must be at least 6 characters"
  const MinPasswordLength: nat := 6
  const GenericAuthError: string := "An error occurred. Please try again"

  /** The six error codes that have a message of their own. */
  const KnownAuthCodes: seq<string> := [
    "auth/email-already-in-use", "auth/invalid-email", "auth/weak-password",
    "auth/user-not-found", "auth/wrong-password", "auth/too-many-requests"
  ]

  /** What a sign-in request sends. */
  datatype Credentials = Credentials(email: string, password: string)

  /** What a sign-up request sends. */
  datatype Registration = Registration(name: string, email: string, password: string)

  /**
   * The login check: refused, with no request, when the e-mail field is blank or the password
   * is empty (the password is not trimmed); otherwise the trimmed e-mail is sent.
   */
  function CheckLogin(emailField: string, password: string): (r: Result<Credentials, string>)
    ensures r.Failure? <==> IsBlank(emailField) || password == ""
    ensures r.Failure? ==> r.error == FillAllFields
    ensures r.Success? ==>
      && r.value.password == password
      && r.value.email == Trim(emailField)
      && r.value.email != "" && Unpadded(r.value.email)
  {
    var email := Trim(emailField);
    if email == "" || password == "" then Failure(FillAllFields)
    else Success(Credentials(email, password))
  }

  /**
   * The signup check: a blank name or e-mail or an empty password is refused first; then a
   * password shorter than six UTF-16 code units; anything else is sent, name and e-mail trimmed.
   */
  function CheckSignup(nameField: string, emailField: string, password: string): (r: Result<Registration, string>)
    ensures r.Success? <==>
      !IsBlank(nameField) && !IsBlank(emailField) && password != "" && Utf16Length(password) >= MinPasswordLength
    ensures r.Failure? ==> r.error == FillAllFields || r.error == PasswordTooShort
    ensures r == Failure(FillAllFields) <==> IsBlank(nameField) || IsBlank(emailField) || password == ""
    ensures r == Failure(PasswordTooShort) <==>
      !IsBlank(nameField) && !IsBlank(emailField) && password != "" && Utf16Length(password) < MinPasswordLength
    ensures r.Success? ==>
      && r.value == Registration(Trim(nameField), Trim(emailField), password)
      && r.value.name != "" && r.value.email != ""
      && Utf16Length(password) >= MinPasswordLength && |password| >= MinPasswordLength / 2
  {
    var name := Trim(nameField);
    var email := Trim(emailField);
    if name == "" || email == "" || password == "" then Failure(FillAllFields)
    else if Utf16Length(password) < MinPasswordLength then Failure(PasswordTooShort)
    else Success(Registration(name, email, password))
  }

  /** With names and e-mail filled in, a six-character password of the Basic Multilingual Plane passes and a five-character one does not. */
  lemma SignupLengthBoundary(nameField: string, emailField: string, password: string)
    requires !IsBlank(nameField) && !IsBlank(emailField)
    requires forall i | 0 <= i < |password| :: password[i] as int < 0x1_0000
    ensures |password| == 6 ==> CheckSignup(nameField, emailField, password).Success?
    ensures |password| == 5 ==> CheckSignup(nameField, emailField, password) == Failure(PasswordTooShort)
  {
  }

  /** getAuthErrorMessage: a message for each of the six known codes, the generic one for every other code. */
  function AuthErrorMessage(code: string): (msg: string)
    ensures msg == GenericAuthError <==> code !in KnownAuthCodes
    ensures msg != ""
  {
    if code == "auth/email-already-in-use" then "This email is already registered"
    else if code == "auth/invalid-email" then "Invalid email address"
    else if code == "auth/weak-password" then "Password is too weak"
    else if code == "auth/user-not-found" then "No account found with this email"
    else if code == "auth/wrong-password" then "Incorrect password"
    else if code == "auth/too-many-requests" then "Too many failed attempts. Please try again later"
    else GenericAuthError
  }

  /** The messages of the six known codes, index by index. */
  const KnownAuthMessages: seq<string> := [
    "This email is already registered", "Invalid email address", "Password is too weak",
    "No account found with this email", "Incorrect password", "Too many failed attempts. Please try again later"
  ]

  /** The i-th known code gets the i-th message. */
  lemma AuthErrorMessageOfKnown(i: nat)
    requires i < |KnownAuthCodes|
    ensures AuthErrorMessage(KnownAuthCodes[i]) == KnownAuthMessages[i]
  {
    var code := KnownAuthCodes[i];
    assert i >= 1 ==> code[5] != 'e';
    assert i >= 2 ==> code[5] != 'i';
    assert i >= 3 ==> code[5] != 'w' || code[6] != 'e';
    assert i >= 4 ==> code[5] != 'u';
    assert i >= 5 ==> code[5] != 'w';
  }

  /** Two different known codes get different messages. */
  lemma AuthErrorMessagesDistinct(a: string, b: string)
    requires a in KnownAuthCodes && b in KnownAuthCodes && a != b
    ensures AuthErrorMessage(a) != AuthErrorMessage(b)
  {
    var i :| 0 <= i < |KnownAuthCodes| && KnownAuthCodes[i] == a;
    var j :| 0 <= j < |KnownAuthCodes| && KnownAuthCodes[j] == b;
    AuthErrorMessageOfKnown(i);
    AuthErrorMessageOfKnown(j);
    var m, n := KnownAuthMessages[i], KnownAuthMessages[j];
    assert |m| != |n| || m[0] != n[0];
  }

  /** The two forms: field values, the disabled state of each button and each error line. */
  class AuthForms {
    var loginEmail: string
    var loginPassword: string
    var loginDisabled: bool
    var loginError: string
    var signupName: string
    var signupEmail: string
    var signupPassword: string
    var signupDisabled: bool
    var signupError: string

    constructor ()
      ensures loginEmail == "" && loginPassword == "" && !loginDisabled && loginError == ""
      ensures signupName == "" && signupEmail == "" && signupPassword == "" && !signupDisabled && signupError == ""
    {
      loginEmail, loginPassword, loginDisabled, loginError := "", "", false, "";
      signupName, signupEmail, signupPassword, signupDisabled, signupError := "", "", "", false, "";
    }

    /**
     * A click on the login button (a disabled button delivers none). A refused check shows its
     * message and leaves the button enabled; a passed one disables it, clears the error line
     * and returns the sign-in request.
     */
    method LoginClicked() returns (request: Option<Credentials>)
      modifies this`loginDisabled, this`loginError
      ensures old(loginDisabled) ==> loginDisabled && request == None && loginError == old(loginError)
      ensures !old(loginDisabled) ==> Clicked(CheckLogin(loginEmail, loginPassword), loginDisabled, loginError, request)
    {
      request := None;
      if loginDisabled {
        return;
      }
      var email, password := loginEmail, loginPassword;
      loginDisabled, loginError, request := Press(CheckLogin(email, password));
      assert email == loginEmail && password == loginPassword;
    }

    /**
     * The state an enabled button is left in by the outcome of its form's check: a refusal
     * leaves it enabled with the message shown and no request; a pass disables it, clears the
     * error line and sends the request.
     */
    static predicate Clicked<T(==)>(check: Result<T, string>, disabled: bool, error: string, request: Option<T>)
    {
      match check
      case Failure(message) => !disabled && error == message && request == None
      case Success(value) => disabled && error == "" && request == Some(value)
    }

    /**
     * What an enabled button does with the outcome of its form's check: a refusal leaves it
     * enabled and shows the message; a request disables it and clears the error line.
     */
    static method Press<T(==)>(check: Result<T, string>) returns (disabled: bool, error: string, request: Option<T>)
      ensures Clicked(check, disabled, error, request)
    {
      match check {
        case Failure(message) =>
          disabled, error, request := false, message, None;
        case Success(value) =>
          disabled, error, request := true, "", Some(value);
      }
    }

    /** The sign-in request failed: its message is shown and the button is enabled again. */
    method LoginFailed(code: string)
      modifies this`loginDisabled, this`loginError
      ensures !loginDisabled && loginError == AuthErrorMessage(code)
    {
      loginError := AuthErrorMessage(code);
      loginDisabled := false;
    }

    /** The sign-in request succeeded: both login fields are cleared. */
    method LoginSucceeded()
      modifies this`loginEmail, this`loginPassword
      ensures loginEmail == "" && loginPassword == ""
    {
      loginEmail := "";
      loginPassword := "";
    }

    /** A click on the signup button, with the same button rules as the login button. */
    method SignupClicked() returns (request: Option<Registration>)
      modifies this`signupDisabled, this`signupError
      ensures old(signupDisabled) ==> signupDisabled && request == None && signupError == old(signupError)
      ensures !old(signupDisabled) ==>
        Clicked(CheckSignup(signupName, signupEmail, signupPassword), signupDisabled, signupError, request)
    {
      request := None;
      if signupDisabled {
        return;
      }
      var name, email, password := signupName, signupEmail, signupPassword;
      signupDisabled, signupError, request := Press(CheckSignup(name, email, password));
      assert name == signupName && email == signupEmail && password == signupPassword;
    }

    /** Some step of the sign-up chain failed: its message is shown and the button is enabled again. */
    method SignupFailed(code: string)
      modifies this`signupDisabled, this`signupError
      ensures !signupDisabled && signupError == AuthErrorMessage(code)
    {
      signupError := AuthErrorMessage(code);
      signupDisabled := false;
    }

    /** The whole sign-up chain succeeded: the three signup fields are cleared. */
    method SignupSucceeded()
      modifies this`signupName, this`signupEmail, this`signupPassword
      ensures signupName == "" && signupEmail == "" && signupPassword == ""
    {
      signupName, signupEmail, signupPassword := "", "", "";
    }

    /**
     * The session listener of auth.js. A sign-in starts loading the user's tasks and enables
     * both buttons with their error lines cleared; a sign-out empties the task list. The stored
     * task list and the stored queue are left as they are in both cases.
     */
    method SessionChanged(page: App.Client)
      modifies this`loginDisabled, this`signupDisabled, this`loginError, this`signupError, page`rendered
      ensures page.rendered == []
      ensures page.tasks == old(page.tasks) && page.queue == old(page.queue)
      ensures page.user.Some? ==> !loginDisabled && !signupDisabled && loginError == "" && signupError == ""
      ensures page.user.None? ==>
        && loginDisabled == old(loginDisabled) && signupDisabled == old(signupDisabled)
        && loginError == old(loginError) && signupError == old(signupError)
    {
      if page.user.Some? {
        page.LoadUserTasks();
        loginDisabled, signupDisabled := false, false;
        loginError, signupError := "", "";
      } else {
        page.rendered := [];
      }
    }
  }

  /**
   * Both session listeners on a sign-in, then the answers of the two task queries they start,
   * both returning the same documents: each answer is appended, so every task is listed twice.
   */
  method SignInWithBothListeners(page: App.Client, forms: AuthForms, clock: seq<nat>, docs: seq<Item>)
    requires page.user.Some? && |clock| == |page.tasks|
    modifies page`rendered, forms`loginDisabled, forms`signupDisabled, forms`loginError, forms`signupError
    ensures page.rendered == docs + docs
    ensures !forms.loginDisabled && !forms.signupDisabled
  {
    page.AppAuthStateChanged(clock);
    forms.SessionChanged(page);
    page.UserTasksLoaded(Some(docs));
    page.UserTasksLoaded(Some(docs));
  }

  /**
   * Both session listeners on a sign-out: the list ends up empty when the app.js listener runs
   * first and holding the stored local tasks when it runs last; nothing stored changes.
   */
  method SignOutWithBothListeners(page: App.Client, forms: AuthForms, clock: seq<nat>, appListenerFirst: bool)
    requires page.user.None? && |clock| == |page.tasks|
    modifies page`rendered, forms`loginDisabled, forms`signupDisabled, forms`loginError, forms`signupError
    ensures page.rendered == if appListenerFirst then [] else LocalItems(page.tasks, clock)
    ensures page.tasks == old(page.tasks) && page.queue == old(page.queue)
  {
    if appListenerFirst {
      page.AppAuthStateChanged(clock);
      forms.SessionChanged(page);
    } else {
      forms.SessionChanged(page);
      page.AppAuthStateChanged(clock);
    }
  }
}
