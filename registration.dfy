/** Sign-up (src/pages/Register.tsx): the form's checks in their fixed order, the call to the
    identity provider, and the mapping of its errors to the messages shown. */
module Registration {
  import opened Wrappers
  import opened JsText

  datatype RegisterForm = RegisterForm(email: string, username: string, password: string, confirmPassword: string)

  /** What auth.signUp does: returns a result with or without a user, returns an error (whose
      message may be missing), or throws. */
  datatype SignUpReply = SignedUp(hasUser: bool) | SignUpError(message: Option<string>) | SignUpThrew

  /** The page after submitting: whether signUp was called, the error shown, and whether it
      navigated to the dashboard. */
  datatype RegisterOutcome = RegisterOutcome(signUpCalled: bool, error: Option<string>, toDashboard: bool)

  const MinPasswordLength := 6
  const MismatchMessage := "パスワードが一致しません。"
  const PasswordTooShortMessage := "パスワードは6文字以上で入力してください。"
  const UsernameRequiredMessage := "ユーザー名を入力してください。"
  const AlreadyRegisteredMessage := "このメールアドレスは既に登録されています。"
  const RegisterFailedMessage := "登録に失敗しました。もう一度お試しください。"
  const AlreadyRegisteredText := "User already registered"

  /** The checks made before signUp, in the page's order: the passwords match, the password is long
      enough, the username is not blank. */
  function FormError(form: RegisterForm): (r: Option<string>)
    ensures form.password != form.confirmPassword ==> r == Some(MismatchMessage)
    ensures form.password == form.confirmPassword && |form.password| < MinPasswordLength ==>
      r == Some(PasswordTooShortMessage)
    ensures form.password == form.confirmPassword && |form.password| >= MinPasswordLength && Blank(form.username) ==>
      r == Some(UsernameRequiredMessage)
    ensures r.None? <==>
      form.password == form.confirmPassword && |form.password| >= MinPasswordLength && !Blank(form.username)
  {
    if form.password != form.confirmPassword then Some(MismatchMessage)
    else if |form.password| < MinPasswordLength then Some(PasswordTooShortMessage)
    else if Trim(form.username) == [] then Some(UsernameRequiredMessage)
    else None
  }

  /** The message shown for an error signUp returns. */
  function SignUpErrorText(message: Option<string>): (r: string)
    ensures message == Some(AlreadyRegisteredText) ==> r == AlreadyRegisteredMessage
    ensures message != Some(AlreadyRegisteredText) && message.Some? && Contains(message.value, "password") ==>
      r == PasswordTooShortMessage
    ensures message.None? || (message != Some(AlreadyRegisteredText) && !Contains(message.value, "password")) ==>
      r == RegisterFailedMessage
  {
    if message == Some(AlreadyRegisteredText) then AlreadyRegisteredMessage
    else if message.Some? && Contains(message.value, "password") then PasswordTooShortMessage
    else RegisterFailedMessage
  }

  /** handleSubmit */
  function Submit(form: RegisterForm, reply: SignUpReply): (r: RegisterOutcome)
    ensures r.signUpCalled <==> FormError(form).None?
    ensures !r.signUpCalled ==> r.error == FormError(form) && !r.toDashboard
    ensures r.toDashboard <==> FormError(form).None? && reply == SignedUp(true)
    ensures r.signUpCalled && reply.SignUpError? ==> r.error == Some(SignUpErrorText(reply.message))
    ensures r.signUpCalled && reply.SignUpThrew? ==> r.error == Some(RegisterFailedMessage)
    ensures r.signUpCalled && reply.SignedUp? ==> r.error.None?
  {
    var invalid := FormError(form);
    if invalid.Some? then RegisterOutcome(false, invalid, false)
    else match reply
      case SignedUp(hasUser) => RegisterOutcome(true, None, hasUser)
      case SignUpError(message) => RegisterOutcome(true, Some(SignUpErrorText(message)), false)
      case SignUpThrew => RegisterOutcome(true, Some(RegisterFailedMessage), false)
  }

  /** Whatever the identity provider would answer, a form that fails a check shows that check's
      message and never reaches it. */
  lemma ChecksPrecedeSignUp(form: RegisterForm, reply1: SignUpReply, reply2: SignUpReply)
    requires FormError(form).Some?
    ensures Submit(form, reply1) == Submit(form, reply2)
  {
  }
}
