/** The login screen's decision: a password under six characters is refused before any call to
    the authentication service; otherwise the service's answer becomes either the signed-in user
    or an error message, translated to Portuguese by a chain of substring checks. The service
    itself is a parameter: its answer is given, not computed. */
module Login {
  import opened Wrappers
  import opened Text

  const MinPasswordLength: nat := 6

  const ShortPasswordMessage: string := "A senha deve ter pelo menos 6 caracteres."
  const DefaultError: string := "Erro na autenticação."
  const WrongCredentialsMessage: string := "E-mail ou senha incorretos."
  const AlreadyRegisteredMessage: string := "Este e-mail já está cadastrado."
  const ConfirmEmailMessage: string := "Por favor, confirme seu e-mail para entrar."
  const DefaultName: string := "Usuário"

  /** The signed-in user as the application keeps it. */
  datatype User = User(id: string, name: string, email: string, photo: Option<string>)

  /** The user record of the service's answer: its id, its e-mail and the name and photo in its
      metadata. */
  datatype AuthUser = AuthUser(id: string, email: string, metaName: Option<string>, metaPhoto: Option<string>)

  /** The service's answer: an error with its message, if any, or data with its user, if any. */
  datatype AuthResponse = AuthError(message: Option<string>) | AuthData(user: Option<AuthUser>)

  /** What the form ends with: an error shown, a user handed to the application, or neither
      (the service answered without a user). */
  datatype Outcome = ShowError(message: string) | LoggedIn(user: User) | NoUser

  /** `s || fallback` on an optional string: a missing or empty string gives the fallback. */
  function OrElseText(s: Option<string>, fallback: string): string
  {
    if s.Some? && s.value != "" then s.value else fallback
  }

  /** `err.message || 'Erro na autenticação.'`. */
  function ErrorText(message: Option<string>): (msg: string)
    ensures msg != []
    ensures message.Some? && message.value != "" ==> msg == message.value
    ensures message.None? || message.value == "" ==> msg == DefaultError
  {
    OrElseText(message, DefaultError)
  }

  /** The translation of the service's message, checked in the order of the source. */
  function Translate(msg: string): string
  {
    if Contains(msg, "at least 6 characters") then ShortPasswordMessage
    else if Contains(msg, "Invalid login credentials") || Contains(msg, "Invalid credentials")
            || Contains(Lower(msg), "credentials") then WrongCredentialsMessage
    else if Contains(msg, "User already registered") || Contains(msg, "already registered") then AlreadyRegisteredMessage
    else if Contains(msg, "Email not confirmed") then ConfirmEmailMessage
    else msg
  }

  /** Whatever contains `a + b` contains `b`. */
  lemma ContainsTail(s: string, a: string, b: string)
    requires Contains(s, a + b)
    ensures Contains(s, b)
  {
    var i :| OccursAt(s, a + b, i);
    assert s[i + |a|..i + |a| + |b|] == (a + b)[|a|..];
    assert (a + b)[|a|..] == b;
    assert OccursAt(s, b, i + |a|);
  }

  /** Lower-casing keeps an occurrence of a word that is already in lower case. */
  lemma ContainsLower(s: string, sub: string)
    requires Contains(s, sub)
    requires Lower(sub) == sub
    ensures Contains(Lower(s), sub)
  {
    var i :| OccursAt(s, sub, i);
    assert Lower(s)[i..i + |sub|] == Lower(sub) by {
      forall k | 0 <= k < |sub| ensures Lower(s)[i..i + |sub|][k] == Lower(sub)[k] {
        assert s[i..i + |sub|][k] == sub[k];
      }
    }
    assert OccursAt(Lower(s), sub, i);
  }

  /** The alternatives the source tests first are covered by the ones after them. */
  lemma CoveredAlternatives(msg: string)
    ensures Contains(msg, "Invalid login credentials") || Contains(msg, "Invalid credentials") ==>
              Contains(Lower(msg), "credentials")
    ensures Contains(msg, "User already registered") ==> Contains(msg, "already registered")
  {
    var credentials := "credentials";
    LowerCredentials();
    if Contains(msg, "Invalid login credentials") {
      SplitLoginCredentials();
      ContainsTail(msg, "Invalid login ", credentials);
      ContainsLower(msg, credentials);
    }
    if Contains(msg, "Invalid credentials") {
      SplitCredentials();
      ContainsTail(msg, "Invalid ", credentials);
      ContainsLower(msg, credentials);
    }
    if Contains(msg, "User already registered") {
      SplitRegistered();
      ContainsTail(msg, "User ", "already registered");
    }
  }

  lemma SplitLoginCredentials()
    ensures "Invalid login credentials" == "Invalid login " + "credentials"
  {
  }

  lemma SplitCredentials()
    ensures "Invalid credentials" == "Invalid " + "credentials"
  {
  }

  lemma SplitRegistered()
    ensures "User already registered" == "User " + "already registered"
  {
  }

  /** The word the credentials test looks for is already in lower case. */
  lemma LowerCredentials()
    ensures Lower("credentials") == "credentials"
  {
    var w := "credentials";
    forall k | 0 <= k < |w| ensures LowerChar(w[k]) == w[k] {
    }
  }

  /** The translation reads as four plain rules: the first two alternatives of the credentials
      test and the first of the registration test are covered by the alternatives after them,
      so each test comes down to one word. */
  lemma TranslateSpec(msg: string)
    ensures Contains(msg, "at least 6 characters") ==> Translate(msg) == ShortPasswordMessage
    ensures !Contains(msg, "at least 6 characters") && Contains(Lower(msg), "credentials") ==>
              Translate(msg) == WrongCredentialsMessage
    ensures (!Contains(msg, "at least 6 characters") && !Contains(Lower(msg), "credentials")
             && Contains(msg, "already registered")) ==> Translate(msg) == AlreadyRegisteredMessage
    ensures (!Contains(msg, "at least 6 characters") && !Contains(Lower(msg), "credentials")
             && !Contains(msg, "already registered") && Contains(msg, "Email not confirmed")) ==>
              Translate(msg) == ConfirmEmailMessage
    ensures (!Contains(msg, "at least 6 characters") && !Contains(Lower(msg), "credentials")
             && !Contains(msg, "already registered") && !Contains(msg, "Email not confirmed")) ==>
              Translate(msg) == msg
    ensures msg != [] ==> Translate(msg) != []
  {
    CoveredAlternatives(msg);
  }

  /** `handleAuth`: the password check first, then the service's answer. On registration the
      user is made from the form (the name defaulting to 'Usuário', no photo); on sign-in from
      the answer's record and its metadata. */
  function HandleAuth(isRegistering: bool, name: string, email: string, password: string,
                      answer: AuthResponse): Outcome
  {
    if |password| < MinPasswordLength then ShowError(ShortPasswordMessage)
    else match answer
      case AuthError(message) => ShowError(Translate(ErrorText(message)))
      case AuthData(None) => NoUser
      case AuthData(Some(u)) =>
        if isRegistering then LoggedIn(User(u.id, OrElseText(Some(name), DefaultName), email, None))
        else LoggedIn(User(u.id, OrElseText(u.metaName, DefaultName), u.email,
                           if u.metaPhoto.Some? && u.metaPhoto.value != "" then u.metaPhoto else None))
  }

  /** A short password is refused whatever the service would have answered, so the service is
      never asked. */
  lemma ShortPasswordNoCall(isRegistering: bool, name: string, email: string, password: string,
                            a1: AuthResponse, a2: AuthResponse)
    requires |password| < MinPasswordLength
    ensures HandleAuth(isRegistering, name, email, password, a1) == ShowError(ShortPasswordMessage)
    ensures HandleAuth(isRegistering, name, email, password, a1) == HandleAuth(isRegistering, name, email, password, a2)
  {
  }

  /** An error is shown exactly for a short password or an error answer, and its message is
      never empty; a user is signed in only with a password of six characters or more, always
      with a name; a registered user keeps the form's e-mail and name (when given) and has no
      photo; a signed-in user takes the answer's e-mail and never an empty photo. */
  lemma HandleAuthSpec(isRegistering: bool, name: string, email: string, password: string,
                       answer: AuthResponse)
    ensures var o := HandleAuth(isRegistering, name, email, password, answer);
      && (o.ShowError? <==> |password| < MinPasswordLength || answer.AuthError?)
      && (o.ShowError? ==> o.message != [])
      && (o.LoggedIn? <==> |password| >= MinPasswordLength && answer.AuthData? && answer.user.Some?)
      && (o.LoggedIn? ==> o.user.id == answer.user.value.id && o.user.name != [])
      && (o.LoggedIn? && isRegistering ==>
            o.user.email == email && o.user.photo.None? && (name != "" ==> o.user.name == name))
      && (o.LoggedIn? && !isRegistering ==>
            o.user.email == answer.user.value.email && (o.user.photo.Some? ==> o.user.photo.value != ""))
  {
    if |password| >= MinPasswordLength && answer.AuthError? {
      TranslateSpec(ErrorText(answer.message));
    }
  }
}
