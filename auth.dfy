/** The sign-in / sign-up page (src/pages/Auth.tsx): the submit flow and the mapping
    of the authentication service's error messages to form errors. */
module Auth {
  import opened Wrappers
  import opened Text
  import opened Types
  import opened Database

  const AlreadyRegistered: string := "User already registered"
  const PasswordTooShort: string := "Password should be at least 6 characters"
  const InvalidEmail: string := "Invalid email"
  const InvalidCredentials: string := "Invalid login credentials"

  const EmailInUseText: string := "Este e-mail já está em uso. Tente fazer login ou use outro e-mail."
  const ShortPasswordText: string := "A senha deve ter pelo menos 6 caracteres."
  const InvalidEmailText: string := "E-mail inválido."
  const InvalidCredentialsText: string := "Credenciais inválidas. Verifique seu e-mail e senha."

  datatype Field = Email | Password

  /** What the page shows for a failed submit: an error under a form field, or an alert. */
  datatype Feedback = FieldError(field: Field, text: string) | Alert(text: string)

  /** The text `'Erro: ' + error.message` produces; a missing message prints as `undefined`. */
  function AlertText(message: Option<string>): string {
    "Erro: " + (if message.Some? then message.value else "undefined")
  }

  /** The catch block's if-chain: the first known phrase contained in the message decides;
      a missing message (`error.message?.includes` is undefined) or an unknown one alerts. */
  function ClassifyAuthError(message: Option<string>): Feedback {
    if message.Some? && Contains(message.value, AlreadyRegistered) then FieldError(Email, EmailInUseText)
    else if message.Some? && Contains(message.value, PasswordTooShort) then FieldError(Password, ShortPasswordText)
    else if message.Some? && Contains(message.value, InvalidEmail) then FieldError(Email, InvalidEmailText)
    else if message.Some? && Contains(message.value, InvalidCredentials) then FieldError(Email, InvalidCredentialsText)
    else Alert(AlertText(message))
  }

  /** Each outcome of the classifier, both directions: which phrases the message must and
      must not contain for it. Earlier phrases win over later ones. */
  lemma ClassifyAuthErrorMeaning(message: Option<string>)
    ensures ClassifyAuthError(message) == FieldError(Email, EmailInUseText) <==>
              message.Some? && Contains(message.value, AlreadyRegistered)
    ensures ClassifyAuthError(message) == FieldError(Password, ShortPasswordText) <==>
              message.Some? && !Contains(message.value, AlreadyRegistered) && Contains(message.value, PasswordTooShort)
    ensures ClassifyAuthError(message) == FieldError(Email, InvalidEmailText) <==>
              message.Some? && !Contains(message.value, AlreadyRegistered) && !Contains(message.value, PasswordTooShort)
              && Contains(message.value, InvalidEmail)
    ensures ClassifyAuthError(message) == FieldError(Email, InvalidCredentialsText) <==>
              message.Some? && !Contains(message.value, AlreadyRegistered) && !Contains(message.value, PasswordTooShort)
              && !Contains(message.value, InvalidEmail) && Contains(message.value, InvalidCredentials)
    ensures ClassifyAuthError(message).Alert? <==>
              message.None? || (!Contains(message.value, AlreadyRegistered) && !Contains(message.value, PasswordTooShort)
                                && !Contains(message.value, InvalidEmail) && !Contains(message.value, InvalidCredentials))
    ensures ClassifyAuthError(message).Alert? ==> ClassifyAuthError(message).text == AlertText(message)
  {
  }

  /** The service's "already registered" message gives the e-mail-in-use error. */
  lemma RegisteredMessage()
    ensures ClassifyAuthError(Some(AlreadyRegistered)) == FieldError(Email, EmailInUseText)
  {
    SelfContains(AlreadyRegistered);
  }

  /** The service's "invalid email" message passes the two earlier tests and gives the
      invalid-e-mail error. */
  lemma InvalidEmailMessage()
    ensures ClassifyAuthError(Some(InvalidEmail)) == FieldError(Email, InvalidEmailText)
  {
    Absent(InvalidEmail, AlreadyRegistered);
    Absent(InvalidEmail, PasswordTooShort);
    SelfContains(InvalidEmail);
  }

  /** A missing message is an alert reading `Erro: undefined`. */
  lemma MissingMessage()
    ensures ClassifyAuthError(None) == Alert("Erro: undefined")
  {
  }

  lemma SelfContains(s: string)
    ensures Contains(s, s)
  {
    assert OccursAt(s, s, 0);
    ContainsIff(s, s);
  }

  /** A needle that is not a prefix of `hay` and whose first character never occurs
      later in `hay` does not occur in `hay` at all. */
  lemma Absent(hay: string, needle: string)
    requires |hay| > 0 && |needle| > 0 && needle[0] !in hay[1..]
    requires hay[0] != needle[0] || |needle| > |hay| || hay[..|needle|] != needle
    ensures !Contains(hay, needle)
  {
    ContainsIff(hay, needle);
    forall i | 0 <= i && i + |needle| <= |hay|
      ensures !OccursAt(needle, hay, i)
    {
      if i > 0 {
        assert hay[i..i + |needle|][0] == hay[1..][i - 1];
      } else {
        assert hay[i..i + |needle|][0] == hay[0];
      }
    }
  }

  /** The outcome of the authentication call: success (sign-up may return no user), or an
      error with an optional message. */
  datatype AuthOutcome = Authenticated(user: Option<UserId>) | AuthFailed(message: Option<string>)

  /** What a submit leads to: navigation to a path, or feedback on the form. */
  datatype Effect = Navigate(path: string) | Show(feedback: Feedback)

  /** The submitted form. */
  datatype AuthForm = AuthForm(email: string, password: string, displayName: Option<string>)

  /** The profile row sign-up inserts. */
  function NewProfile(form: AuthForm): ProfileInsert {
    ProfileInsert(OrElse(form.displayName, ""), form.email, "", "", 0, 0)
  }

  class AuthPage {
    var isSignUp: bool
    var loading: bool
    var emailError: Option<string>
    var passwordError: Option<string>

    constructor()
      ensures !isSignUp && !loading && emailError == None && passwordError == None
    {
      isSignUp := false;
      loading := false;
      emailError := None;
      passwordError := None;
    }

    /** The link under the title switches between the two modes. */
    method ToggleMode()
      modifies this`isSignUp
      ensures isSignUp == !old(isSignUp)
    {
      isSignUp := !isSignUp;
    }

    /** onSubmit. A failed authentication shows its classified feedback and sets the
        matching field error. A successful sign-in navigates home. A successful sign-up
        inserts the profile when the service returned a user and navigates home whether
        or not that insert succeeded (its error is only logged). Loading ends either way. */
    method OnSubmit(db: Store, form: AuthForm, outcome: AuthOutcome, profileOk: bool) returns (effect: Effect)
      modifies this`loading, this`emailError, this`passwordError, db`users
      ensures !loading
      ensures outcome.Authenticated? ==>
                effect == Navigate("/") && emailError == old(emailError) && passwordError == old(passwordError)
      ensures outcome.Authenticated? && isSignUp && outcome.user.Some? && profileOk ==>
                db.users == old(db.users)[outcome.user.value := NewProfile(form)]
      ensures !(outcome.Authenticated? && isSignUp && outcome.user.Some? && profileOk) ==>
                db.users == old(db.users)
      ensures outcome.AuthFailed? ==>
                effect == Show(ClassifyAuthError(outcome.message))
      ensures outcome.AuthFailed? && effect.feedback.FieldError? && effect.feedback.field == Email ==>
                emailError == Some(effect.feedback.text) && passwordError == old(passwordError)
      ensures outcome.AuthFailed? && effect.feedback.FieldError? && effect.feedback.field == Password ==>
                passwordError == Some(effect.feedback.text) && emailError == old(emailError)
      ensures outcome.AuthFailed? && effect.feedback.Alert? ==>
                emailError == old(emailError) && passwordError == old(passwordError)
    {
      loading := true;
      match outcome {
      case Authenticated(user) =>
        if isSignUp && user.Some? && profileOk {
          db.users := db.users[user.value := NewProfile(form)];
        }
        effect := Navigate("/");
      case AuthFailed(message) =>
        var feedback := ClassifyAuthError(message);
        if feedback.FieldError? {
          if feedback.field == Email {
            emailError := Some(feedback.text);
          } else {
            passwordError := Some(feedback.text);
          }
        }
        effect := Show(feedback);
      }
      loading := false;
    }
  }
}
