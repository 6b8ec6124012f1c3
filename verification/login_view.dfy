/** `LoginView`: email/password login (Firebase first, then the storefront), the
    stay-logged-in persistence it performs, auto-login on appear, and the full-name split
    used when a social sign-in saves the user's profile.
 */
module Login {
  import opened Wrappers
  import opened Defaults
  import opened Text
  import CartManager

  /** The screen's `@State`. */
  datatype LoginState = LoginState(
    email: string,
    password: string,
    isLoggingIn: bool,
    showAlert: bool,
    alertMessage: string,
    navigateToLoggedIn: bool,
    stayLoggedIn: bool,
    isLoading: bool)

  /** What a Firebase sign-in callback receives: an error with its description, or a user. */
  datatype AuthOutcome = AuthFailure(description: string) | AuthSuccess

  /** The screen and the `@AppStorage` store after an action. */
  datatype Session = Session(screen: LoginState, store: Store)

  const SHOPIFY_LOGIN_FAILED: string := "Failed to log in with Shopify. Please check your credentials."

  /** What a successful Firebase login persists: the flag, and the credentials or blanks. */
  function RememberChoice(store: Store, stay: bool, email: string, password: string): (r: Store)
    ensures BoolOr(r, STAY_LOGGED_IN_KEY, false) == stay && BoolOr(r, STAY_LOGGED_IN_KEY, true) == stay
    ensures StringFor(r, SAVED_EMAIL_KEY) == Some(if stay then email else "")
    ensures StringFor(r, SAVED_PASSWORD_KEY) == Some(if stay then password else "")
    ensures SameOutside(store, r, {STAY_LOGGED_IN_KEY, SAVED_EMAIL_KEY, SAVED_PASSWORD_KEY})
  {
    var s1 := Put(store, STAY_LOGGED_IN_KEY, BoolValue(stay));
    var s2 := Put(s1, SAVED_EMAIL_KEY, StringValue(if stay then email else ""));
    Put(s2, SAVED_PASSWORD_KEY, StringValue(if stay then password else ""))
  }

  /** `loginUser()`: Firebase sign-in with the typed credentials; its callback ends the
      logging-in state. A Firebase error shows its description and stops. Otherwise the
      stay-logged-in choice is persisted and the storefront login runs with the same
      credentials: a token sets `isUserLoggedIn` and navigates, no token shows an alert. */
  function LoginUser(s: LoginState, store: Store, auth: AuthOutcome, shop: CartManager.TokenOutcome): (r: Session)
    ensures !r.screen.isLoggingIn
    ensures r.screen.email == s.email && r.screen.password == s.password && r.screen.stayLoggedIn == s.stayLoggedIn
    ensures r.screen.isLoading == s.isLoading
    ensures auth.AuthFailure? ==>
              r.store == store && r.screen.showAlert && r.screen.alertMessage == auth.description
              && r.screen.navigateToLoggedIn == s.navigateToLoggedIn
    ensures auth.AuthSuccess? ==>
              var remembered := RememberChoice(store, s.stayLoggedIn, s.email, s.password);
              var shopped := CartManager.LoginCustomer(remembered, shop);
              if shopped.token.Some? then
                r.store == Put(shopped.store, IS_USER_LOGGED_IN_KEY, BoolValue(true))
                && r.screen.navigateToLoggedIn && r.screen.showAlert == s.showAlert
              else
                r.store == shopped.store && r.screen.showAlert && r.screen.alertMessage == SHOPIFY_LOGIN_FAILED
                && r.screen.navigateToLoggedIn == s.navigateToLoggedIn
  {
    var started := s.(isLoggingIn := true);
    var called := started.(isLoggingIn := false);
    match auth
    case AuthFailure(d) => Session(called.(alertMessage := d, showAlert := true), store)
    case AuthSuccess =>
      var remembered := RememberChoice(store, s.stayLoggedIn, s.email, s.password);
      var shopped := CartManager.LoginCustomer(remembered, shop);
      if shopped.token.Some? then
        Session(called.(navigateToLoggedIn := true), Put(shopped.store, IS_USER_LOGGED_IN_KEY, BoolValue(true)))
      else
        Session(called.(alertMessage := SHOPIFY_LOGIN_FAILED, showAlert := true), shopped.store)
  }

  /** The persisted session flags after a login: a Firebase failure changes none of them;
      otherwise the stay-logged-in flag and the saved credentials follow the checkbox
      whether or not the storefront login succeeds, and `isUserLoggedIn` becomes true
      exactly when the storefront returns a token (it is left as it was otherwise). */
  lemma LoginPersistsChoice(s: LoginState, store: Store, auth: AuthOutcome, shop: CartManager.TokenOutcome)
    ensures var r := LoginUser(s, store, auth, shop).store;
            auth.AuthFailure? ==>
              BoolOr(r, STAY_LOGGED_IN_KEY, false) == BoolOr(store, STAY_LOGGED_IN_KEY, false)
              && StringFor(r, SAVED_EMAIL_KEY) == StringFor(store, SAVED_EMAIL_KEY)
              && BoolOr(r, IS_USER_LOGGED_IN_KEY, false) == BoolOr(store, IS_USER_LOGGED_IN_KEY, false)
    ensures var r := LoginUser(s, store, auth, shop).store;
            auth.AuthSuccess? ==>
              BoolOr(r, STAY_LOGGED_IN_KEY, false) == s.stayLoggedIn
              && StringFor(r, SAVED_EMAIL_KEY) == Some(if s.stayLoggedIn then s.email else "")
              && StringFor(r, SAVED_PASSWORD_KEY) == Some(if s.stayLoggedIn then s.password else "")
    ensures var r := LoginUser(s, store, auth, shop).store;
            auth.AuthSuccess? && CartManager.TokenOf(shop).Some? ==>
              BoolOr(r, IS_USER_LOGGED_IN_KEY, false) && StringFor(r, CUSTOMER_ACCESS_TOKEN_KEY) == CartManager.TokenOf(shop)
    ensures var r := LoginUser(s, store, auth, shop).store;
            auth.AuthSuccess? && CartManager.TokenOf(shop).None? ==>
              BoolOr(r, IS_USER_LOGGED_IN_KEY, false) == BoolOr(store, IS_USER_LOGGED_IN_KEY, false)
  {
    if auth.AuthSuccess? {
      var remembered := RememberChoice(store, s.stayLoggedIn, s.email, s.password);
      CartManager.LoginThenTokenReadable(remembered, shop);
      var shopped := CartManager.LoginCustomer(remembered, shop);
      if shopped.token.Some? {
        PutThenRead(shopped.store, IS_USER_LOGGED_IN_KEY, BoolValue(true), STAY_LOGGED_IN_KEY);
        PutThenRead(shopped.store, IS_USER_LOGGED_IN_KEY, BoolValue(true), SAVED_EMAIL_KEY);
        PutThenRead(shopped.store, IS_USER_LOGGED_IN_KEY, BoolValue(true), SAVED_PASSWORD_KEY);
        PutThenRead(shopped.store, IS_USER_LOGGED_IN_KEY, BoolValue(true), CUSTOMER_ACCESS_TOKEN_KEY);
      }
    }
  }

  /** The credentials an auto-login signs in with. */
  datatype Credentials = Credentials(email: string, password: string)

  /** The effect of `handleAutoLogin()`: the session afterwards and the sign-in attempted,
      if any. */
  datatype AutoLogin = AutoLogin(session: Session, attempt: Option<Credentials>)

  const AUTH_ERROR_PREFIX: string := "Error authenticating: "

  /** `handleAutoLogin()`: with a current Firebase user and the stay-logged-in flag set,
      sign in again with the saved credentials; on an error show it and clear the logged-in
      flag, the stay-logged-in flag and both saved credentials, otherwise navigate. Without
      a current user or the flag, just stop loading. */
  function HandleAutoLogin(s: LoginState, store: Store, hasCurrentUser: bool, auth: AuthOutcome): (r: AutoLogin)
    ensures !r.session.screen.isLoading
    ensures r.attempt.Some? <==> hasCurrentUser && BoolOr(store, STAY_LOGGED_IN_KEY, false)
    ensures r.attempt.Some? ==>
              r.attempt.value == Credentials(StringOr(store, SAVED_EMAIL_KEY, ""), StringOr(store, SAVED_PASSWORD_KEY, ""))
    ensures r.attempt.None? ==> r.session == Session(s.(isLoading := false), store)
    ensures r.attempt.Some? && auth.AuthSuccess? ==> r.session == Session(s.(isLoading := false, navigateToLoggedIn := true), store)
    ensures r.attempt.Some? && auth.AuthFailure? ==>
              && r.session.screen == s.(isLoading := false, showAlert := true, alertMessage := AUTH_ERROR_PREFIX + auth.description)
              && BoolOr(r.session.store, IS_USER_LOGGED_IN_KEY, true) == false
              && BoolOr(r.session.store, STAY_LOGGED_IN_KEY, true) == false
              && StringFor(r.session.store, SAVED_EMAIL_KEY) == Some("")
              && StringFor(r.session.store, SAVED_PASSWORD_KEY) == Some("")
              && SameOutside(store, r.session.store, {IS_USER_LOGGED_IN_KEY, STAY_LOGGED_IN_KEY, SAVED_EMAIL_KEY, SAVED_PASSWORD_KEY})
  {
    if hasCurrentUser && BoolOr(store, STAY_LOGGED_IN_KEY, false) then
      var attempt := Credentials(StringOr(store, SAVED_EMAIL_KEY, ""), StringOr(store, SAVED_PASSWORD_KEY, ""));
      var called := s.(isLoading := false);
      match auth
      case AuthFailure(d) =>
        var cleared := RememberChoice(Put(store, IS_USER_LOGGED_IN_KEY, BoolValue(false)), false, "", "");
        AutoLogin(Session(called.(alertMessage := AUTH_ERROR_PREFIX + d, showAlert := true), cleared), Some(attempt))
      case AuthSuccess =>
        AutoLogin(Session(called.(navigateToLoggedIn := true), store), Some(attempt))
    else
      AutoLogin(Session(s.(isLoading := false), store), None)
  }

  /** A login with "stay logged in" ticked followed, on the next launch, by an auto-login
      tries exactly the credentials that were typed. */
  lemma StayLoggedInRoundTrip(s: LoginState, store: Store, shop: CartManager.TokenOutcome, next: LoginState, auth: AuthOutcome)
    requires s.stayLoggedIn
    ensures var saved := LoginUser(s, store, AuthSuccess, shop).store;
            HandleAutoLogin(next, saved, true, auth).attempt == Some(Credentials(s.email, s.password))
  {
    LoginPersistsChoice(s, store, AuthSuccess, shop);
  }

  /** After a failed auto-login the next launch does not try again. */
  lemma FailedAutoLoginIsNotRetried(s: LoginState, store: Store, hasCurrentUser: bool, d: string, next: LoginState, auth: AuthOutcome)
    ensures var after := HandleAutoLogin(s, store, hasCurrentUser, AuthFailure(d)).session.store;
            HandleAutoLogin(next, after, hasCurrentUser, auth).attempt.None?
  {
  }

  /** `PersonNameComponents` as far as the app fills it in. */
  datatype NameComponents = NameComponents(givenName: string, familyName: string)

  /** `convertFullNameToComponents`: split on spaces (empty pieces omitted); nothing when
      there is no piece, else the first piece and the rest joined by single spaces. */
  function ConvertFullNameToComponents(fullName: string): (r: Option<NameComponents>)
    ensures r.None? <==> Tokens(fullName) == []
    ensures r.Some? ==> r.value.givenName == Tokens(fullName)[0]
  {
    var parts := Tokens(fullName);
    if |parts| == 0 then None
    else Some(NameComponents(parts[0], Join(parts[1..], " ")))
  }

  /** The split gives nothing exactly for a blank name. Otherwise the given name is one
      word, the family name splits back into the remaining words, and it is empty exactly
      for a one-word name. */
  lemma NameSplitKeepsWords(fullName: string)
    ensures ConvertFullNameToComponents(fullName).None? <==> AllSpaces(fullName)
    ensures var r := ConvertFullNameToComponents(fullName);
            r.Some? ==> IsWord(r.value.givenName) && Tokens(r.value.familyName) == Tokens(fullName)[1..]
    ensures var r := ConvertFullNameToComponents(fullName);
            r.Some? ==> (r.value.familyName == "" <==> |Tokens(fullName)| == 1)
  {
    TokensEmptyIff(fullName);
    var parts := Tokens(fullName);
    if |parts| > 0 {
      TokensOfJoin(parts[1..]);
      if |parts| > 1 {
        assert |Join(parts[1..], " ")| >= |parts[1]| > 0 by {
          JoinStartsWithFirst(parts[1..]);
        }
      }
    }
  }

  lemma {:induction false} JoinStartsWithFirst(parts: seq<string>)
    requires |parts| > 0
    ensures |Join(parts, " ")| >= |parts[0]| && Join(parts, " ")[..|parts[0]|] == parts[0]
  {
    if |parts| > 1 {
      assert Join(parts, " ") == parts[0] + (" " + Join(parts[1..], " "));
    }
  }

  /** Splitting a name made of words joined by single spaces gives back its first word and
      the rest, joined the same way. */
  lemma NameSplitOfJoin(parts: seq<string>)
    requires |parts| > 0
    requires forall i :: 0 <= i < |parts| ==> IsWord(parts[i])
    ensures ConvertFullNameToComponents(Join(parts, " ")) == Some(NameComponents(parts[0], Join(parts[1..], " ")))
  {
    TokensOfJoin(parts);
  }

  /** The profile fields `saveUserDataToFirestore` merges: the email, and the name parts or
      blanks. */
  datatype UserData = UserData(documentId: string, email: string, firstName: string, lastName: string)

  function UserDataFor(email: string, fullName: Option<NameComponents>): (r: UserData)
    ensures r.documentId == email && r.email == email
    ensures fullName.None? ==> r.firstName == "" && r.lastName == ""
    ensures fullName.Some? ==> r.firstName == fullName.value.givenName && r.lastName == fullName.value.familyName
  {
    UserData(email, email, if fullName.Some? then fullName.value.givenName else "", if fullName.Some? then fullName.value.familyName else "")
  }
}
