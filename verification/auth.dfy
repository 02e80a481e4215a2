/** Authentication events and screen state (app/.../ui/auth/AuthEvent.kt) and the view-model that
    validates input, calls the identity provider and keeps three flags on screen
    (app/.../ui/auth/AuthViewModel.kt). The provider's answer to a call is a parameter; every call
    made is recorded, with the flags on screen while it is pending. The email pattern is a
    predicate given to the view-model. */
module Auth {
  import opened Common

  datatype AuthEvent =
    | SignIn(email: string, password: string)
    | SignUp(email: string, password: string)
    | ResetPassword(email: string)
    | SignOut
    | ClearError

  /** The signed-in user as the provider reports it. */
  datatype User = User(uid: string, email: Option<string>)

  /** The provider's session stream: starts loading, not authenticated. */
  datatype AuthState = AuthState(isAuthenticated: bool := false, user: Option<User> := None, isLoading: bool := true)

  /** What the authentication screen shows. */
  datatype AuthUiState = AuthUiState(
    isAuthenticated: bool := false,
    isInitialLoading: bool := true,
    isActionLoading: bool := false,
    errorMessage: Option<string> := None,
    successMessage: Option<string> := None,
    welcomeMessage: Option<string> := None,
    user: Option<User> := None)

  /** The provider's answer: success, or failure with a readable message. */
  datatype AuthResult = Success | Error(message: string)

  /** A call to the identity provider. */
  datatype AuthRequest =
    | SignInRequest(email: string, password: string)
    | SignUpRequest(email: string, password: string)
    | ResetPasswordRequest(email: string)
    | SignOutRequest

  /** The view-model's three private flags. */
  datatype Flags = Flags(isActionLoading: bool, errorMessage: Option<string>, successMessage: Option<string>)

  const InitialFlags := Flags(false, None, None)

  /** One provider call and the flags on screen while it was pending. */
  datatype ProviderCall = ProviderCall(request: AuthRequest, pending: Flags)

  const InvalidEmail := "Entre com um e-mail válido."
  const ShortPassword := "A senha precisa ter pelo menos 6 caracteres."
  const SignUpDone := "Cadastro feito com sucesso!"
  const ResetEmailSent := "E-mail para redefinição de senha enviado!"
  const MinPasswordLength := 6

  /** String.length: the number of UTF-16 code units; a character outside the Basic
      Multilingual Plane takes two. */
  function Utf16Length(s: string): (n: nat)
    ensures |s| <= n <= 2 * |s|
  {
    if s == [] then 0 else (if s[0] as int > 0xFFFF then 2 else 1) + Utf16Length(s[1..])
  }

  /** For text made only of Basic Multilingual Plane characters, the length is the number of
      characters. */
  lemma {:induction false} Utf16LengthOfBmp(s: string)
    requires forall i :: 0 <= i < |s| ==> s[i] as int <= 0xFFFF
    ensures Utf16Length(s) == |s|
  {
    if s != [] {
      Utf16LengthOfBmp(s[1..]);
    }
  }

  /** The message of the first validation rule an event's input breaks, if any: the email
      pattern first, then (sign-in and sign-up only) the password length. */
  function Rejection(event: AuthEvent, isValidEmail: string -> bool): Option<string> {
    match event
    case SignIn(email, password) =>
      if !isValidEmail(email) then Some(InvalidEmail)
      else if Utf16Length(password) < MinPasswordLength then Some(ShortPassword)
      else None
    case SignUp(email, password) =>
      if !isValidEmail(email) then Some(InvalidEmail)
      else if Utf16Length(password) < MinPasswordLength then Some(ShortPassword)
      else None
    case ResetPassword(email) =>
      if !isValidEmail(email) then Some(InvalidEmail) else None
    case _ => None
  }

  /** The success message an action shows: none for sign-in. */
  function SuccessText(event: AuthEvent): Option<string> {
    match event
    case SignUp(_, _) => Some(SignUpDone)
    case ResetPassword(_) => Some(ResetEmailSent)
    case _ => None
  }

  function RequestFor(event: AuthEvent): AuthRequest
    requires !event.ClearError?
  {
    match event
    case SignIn(email, password) => SignInRequest(email, password)
    case SignUp(email, password) => SignUpRequest(email, password)
    case ResetPassword(email) => ResetPasswordRequest(email)
    case SignOut => SignOutRequest
  }

  /** What handling one event does: the flags afterwards and the provider call made, if any. */
  datatype Step = Step(flags: Flags, call: Option<ProviderCall>)

  /** The view-model's handling of one event from flags f, when the provider answers result. */
  function Handle(f: Flags, event: AuthEvent, isValidEmail: string -> bool, result: AuthResult): (step: Step)
    ensures step.call.Some? <==> event.SignOut? || (!event.ClearError? && Rejection(event, isValidEmail).None?)
    ensures step.call.Some? ==> step.call.value.pending.isActionLoading && !step.flags.isActionLoading
    ensures step.call.None? ==> step.flags.isActionLoading == f.isActionLoading
    ensures step.call.None? && !event.ClearError? ==> step.flags == f.(errorMessage := Rejection(event, isValidEmail))
  {
    match event
    case ClearError => Step(f.(errorMessage := None, successMessage := None), None)
    case SignOut => Step(f.(isActionLoading := false), Some(ProviderCall(SignOutRequest, f.(isActionLoading := true))))
    case _ =>
      match Rejection(event, isValidEmail)
      case Some(message) => Step(f.(errorMessage := Some(message)), None)
      case None =>
        var done := match result
          case Success => Flags(false, None, SuccessText(event))
          case Error(message) => Flags(false, Some(message), None);
        Step(done, Some(ProviderCall(RequestFor(event), Flags(true, None, None))))
  }

  /** The screen state combined from the session stream and the three flags. */
  function UiStateOf(auth: AuthState, f: Flags): (u: AuthUiState)
    ensures u.isAuthenticated == auth.isAuthenticated && u.isInitialLoading == auth.isLoading && u.user == auth.user
    ensures Flags(u.isActionLoading, u.errorMessage, u.successMessage) == f
    ensures u.welcomeMessage == None
  {
    AuthUiState(isAuthenticated := auth.isAuthenticated, isInitialLoading := auth.isLoading,
                isActionLoading := f.isActionLoading, errorMessage := f.errorMessage,
                successMessage := f.successMessage, user := auth.user)
  }

  // ---------------------------------------------------------------------------------------
  // Properties of Handle and UiStateOf

  /** The default screen state: not authenticated, initially loading, no action running, no
      messages, no user. Combining the default session state with the initial flags gives
      exactly that state, so the first combined value matches the initial one. */
  lemma DefaultUiState()
    ensures var u := AuthUiState();
      !u.isAuthenticated && u.isInitialLoading && !u.isActionLoading
      && u.errorMessage == None && u.successMessage == None && u.welcomeMessage == None && u.user == None
    ensures UiStateOf(AuthState(), InitialFlags) == AuthUiState()
  {
  }

  /** An email the pattern rejects stops sign-in, sign-up and reset at once: only the error
      message changes (a previous success message stays) and the provider is not called. */
  lemma InvalidEmailRejected(f: Flags, event: AuthEvent, isValidEmail: string -> bool, result: AuthResult)
    requires event.SignIn? || event.SignUp? || event.ResetPassword?
    requires !isValidEmail(event.email)
    ensures Handle(f, event, isValidEmail, result) == Step(f.(errorMessage := Some(InvalidEmail)), None)
  {
  }

  /** A password shorter than six UTF-16 units stops sign-in and sign-up, but only once the
      email passed; only the error message changes and the provider is not called. */
  lemma ShortPasswordRejected(f: Flags, event: AuthEvent, isValidEmail: string -> bool, result: AuthResult)
    requires event.SignIn? || event.SignUp?
    requires isValidEmail(event.email) && Utf16Length(event.password) < MinPasswordLength
    ensures Handle(f, event, isValidEmail, result) == Step(f.(errorMessage := Some(ShortPassword)), None)
  {
  }

  /** Sign-in and sign-up reach the provider exactly when the email passes the pattern and the
      password has at least six UTF-16 units. */
  lemma CredentialsAccepted(f: Flags, event: AuthEvent, isValidEmail: string -> bool, result: AuthResult)
    requires event.SignIn? || event.SignUp?
    ensures Handle(f, event, isValidEmail, result).call.Some?
        <==> isValidEmail(event.email) && Utf16Length(event.password) >= MinPasswordLength
  {
  }

  /** Password reset checks the email only: it reaches the provider exactly when the email
      passes the pattern, and otherwise fails with the email message. */
  lemma ResetChecksEmailOnly(f: Flags, email: string, isValidEmail: string -> bool, result: AuthResult)
    ensures Handle(f, ResetPassword(email), isValidEmail, result).call.Some? <==> isValidEmail(email)
    ensures Rejection(ResetPassword(email), isValidEmail) == if isValidEmail(email) then None else Some(InvalidEmail)
  {
  }

  /** Input that passes validation reaches the provider exactly once, with the same email and
      password, while loading is on and both messages are cleared; when the answer comes,
      loading is off and the messages say how it went. */
  lemma ValidActionCallsProvider(f: Flags, event: AuthEvent, isValidEmail: string -> bool, result: AuthResult)
    requires event.SignIn? || event.SignUp? || event.ResetPassword?
    requires Rejection(event, isValidEmail).None?
    ensures var step := Handle(f, event, isValidEmail, result);
      && step.call == Some(ProviderCall(RequestFor(event), Flags(true, None, None)))
      && !step.flags.isActionLoading
      && (result.Success? ==> step.flags.errorMessage == None && step.flags.successMessage == SuccessText(event))
      && (result.Error? ==> step.flags.errorMessage == Some(result.message) && step.flags.successMessage == None)
  {
  }

  /** Sign-out always calls the provider with loading on, ignores its answer and ends with
      loading off, the messages untouched. */
  lemma SignOutIgnoresResult(f: Flags, isValidEmail: string -> bool, r1: AuthResult, r2: AuthResult)
    ensures Handle(f, SignOut, isValidEmail, r1) == Handle(f, SignOut, isValidEmail, r2)
    ensures Handle(f, SignOut, isValidEmail, r1)
         == Step(f.(isActionLoading := false), Some(ProviderCall(SignOutRequest, f.(isActionLoading := true))))
  {
  }

  /** After any event the action is no longer loading, unless it was a ClearError (which
      leaves loading as it was). */
  lemma LoadingOffAfterAction(f: Flags, event: AuthEvent, isValidEmail: string -> bool, result: AuthResult)
    ensures !event.ClearError? && Handle(f, event, isValidEmail, result).call.Some?
            ==> !Handle(f, event, isValidEmail, result).flags.isActionLoading
    ensures event.ClearError? ==> Handle(f, event, isValidEmail, result).flags == Flags(f.isActionLoading, None, None)
  {
  }

  // ---------------------------------------------------------------------------------------
  // The view-model

  class AuthViewModel {
    /** The email address pattern. */
    const isValidEmail: string -> bool
    var isActionLoading: bool
    var errorMessage: Option<string>
    var successMessage: Option<string>
    /** The provider calls made so far, oldest first. */
    var calls: seq<ProviderCall>

    constructor(isValidEmail: string -> bool)
      ensures this.isValidEmail == isValidEmail
      ensures CurrentFlags() == InitialFlags && calls == []
    {
      this.isValidEmail := isValidEmail;
      isActionLoading := false;
      errorMessage := None;
      successMessage := None;
      calls := [];
    }

    function CurrentFlags(): Flags
      reads this
    {
      Flags(isActionLoading, errorMessage, successMessage)
    }

    function UiState(auth: AuthState): AuthUiState
      reads this
    {
      UiStateOf(auth, CurrentFlags())
    }

    /** Handle one event; result is what the provider answers if it is called. */
    method OnEvent(event: AuthEvent, result: AuthResult)
      modifies this
      ensures var step := Handle(old(CurrentFlags()), event, isValidEmail, result);
        && CurrentFlags() == step.flags
        && calls == old(calls) + (if step.call.Some? then [step.call.value] else [])
    {
      match event
      case SignIn(email, password) => SignInAction(email, password, result);
      case SignUp(email, password) => SignUpAction(email, password, result);
      case ResetPassword(email) => ResetPasswordAction(email, result);
      case SignOut => SignOutAction(result);
      case ClearError => ClearMessages();
    }

    /** Loading on and both messages cleared, then the call, then the answer shown. */
    method CallProvider(request: AuthRequest, result: AuthResult, success: Option<string>)
      modifies this
      ensures CurrentFlags() == (if result.Success? then Flags(false, None, success) else Flags(false, Some(result.message), None))
      ensures calls == old(calls) + [ProviderCall(request, Flags(true, None, None))]
    {
      isActionLoading := true;
      errorMessage := None;
      successMessage := None;
      calls := calls + [ProviderCall(request, CurrentFlags())];
      match result {
        case Success =>
          successMessage := success;
        case Error(message) =>
          errorMessage := Some(message);
      }
      isActionLoading := false;
    }

    method SignInAction(email: string, password: string, result: AuthResult)
      modifies this
      ensures var step := Handle(old(CurrentFlags()), SignIn(email, password), isValidEmail, result);
        CurrentFlags() == step.flags && calls == old(calls) + (if step.call.Some? then [step.call.value] else [])
    {
      if !isValidEmail(email) {
        errorMessage := Some(InvalidEmail);
        return;
      }
      if Utf16Length(password) < MinPasswordLength {
        errorMessage := Some(ShortPassword);
        return;
      }
      CallProvider(SignInRequest(email, password), result, None);
    }

    method SignUpAction(email: string, password: string, result: AuthResult)
      modifies this
      ensures var step := Handle(old(CurrentFlags()), SignUp(email, password), isValidEmail, result);
        CurrentFlags() == step.flags && calls == old(calls) + (if step.call.Some? then [step.call.value] else [])
    {
      if !isValidEmail(email) {
        errorMessage := Some(InvalidEmail);
        return;
      }
      if Utf16Length(password) < MinPasswordLength {
        errorMessage := Some(ShortPassword);
        return;
      }
      CallProvider(SignUpRequest(email, password), result, Some(SignUpDone));
    }

    method ResetPasswordAction(email: string, result: AuthResult)
      modifies this
      ensures var step := Handle(old(CurrentFlags()), ResetPassword(email), isValidEmail, result);
        CurrentFlags() == step.flags && calls == old(calls) + (if step.call.Some? then [step.call.value] else [])
    {
      if !isValidEmail(email) {
        errorMessage := Some(InvalidEmail);
        return;
      }
      CallProvider(ResetPasswordRequest(email), result, Some(ResetEmailSent));
    }

    method SignOutAction(result: AuthResult)
      modifies this
      ensures var step := Handle(old(CurrentFlags()), SignOut, isValidEmail, result);
        CurrentFlags() == step.flags && calls == old(calls) + (if step.call.Some? then [step.call.value] else [])
    {
      isActionLoading := true;
      calls := calls + [ProviderCall(SignOutRequest, CurrentFlags())];
      isActionLoading := false;
    }

    method ClearMessages()
      modifies this
      ensures CurrentFlags() == Handle(old(CurrentFlags()), ClearError, isValidEmail, Success).flags
      ensures calls == old(calls)
    {
      errorMessage := None;
      successMessage := None;
    }
  }
}
