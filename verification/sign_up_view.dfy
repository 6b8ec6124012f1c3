/** `SignUpView.signUpUser()`: the two guards, Firebase account creation, the user
    document keyed by the lower-cased email, and storefront customer creation.
 */
module SignUp {
  import opened Wrappers
  import opened Storefront
  import opened Text
  import CartManager

  /** The form's `@State`. */
  datatype SignUpState = SignUpState(
    email: string,
    password: string,
    confirmPassword: string,
    firstName: string,
    lastName: string,
    showAlert: bool,
    alertMessage: string,
    isUserSignedUp: bool,
    hasAcceptedEula: bool)

  /** What the account-creation callback receives: an error, or a result that may or may
      not carry a user. */
  datatype CreateUserOutcome = CreateFailure(description: string) | CreateSuccess(hasUser: bool)

  /** What the document write's callback receives. */
  datatype WriteOutcome = WriteFailure(description: string) | WriteSuccess

  /** The `users` document written for a new account. */
  datatype UserDocument = UserDocument(documentId: string, firstName: string, lastName: string, email: string, hasAcceptedEula: bool)

  /** The storefront customer requested for a new account. */
  datatype CustomerRequest = CustomerRequest(email: string, firstName: string, lastName: string, password: string)

  /** The effect of a sign-up: the form afterwards and each request sent (if it was). */
  datatype SignUpEffect = SignUpEffect(
    screen: SignUpState,
    account: Option<(string, string)>,
    document: Option<UserDocument>,
    customer: Option<CustomerRequest>)

  const PASSWORDS_DO_NOT_MATCH: string := "Passwords do not match."
  const MUST_ACCEPT_EULA: string := "You must accept the End User License Agreement."
  const SAVE_FAILED_PREFIX: string := "Failed to save user information: "
  const SIGN_UP_SUCCESS: string := "Sign-up successful! You can now log in."
  const CUSTOMER_FAILED: string := "Failed to create customer in Cart."

  function Alert(s: SignUpState, message: string): SignUpState
  {
    s.(alertMessage := message, showAlert := true)
  }

  /** `signUpUser()`, with the outcome of each call it makes in turn. */
  function SignUpUser(s: SignUpState, create: CreateUserOutcome, write: WriteOutcome, customer: CartManager.CustomerOutcome): (r: SignUpEffect)
    // The guards: a mismatch is reported first; no account is requested if either fails.
    ensures s.password != s.confirmPassword ==> r == SignUpEffect(Alert(s, PASSWORDS_DO_NOT_MATCH), None, None, None)
    ensures s.password == s.confirmPassword && !s.hasAcceptedEula ==> r == SignUpEffect(Alert(s, MUST_ACCEPT_EULA), None, None, None)
    ensures r.account.Some? <==> s.password == s.confirmPassword && s.hasAcceptedEula
    ensures r.account.Some? ==> r.account.value == (s.email, s.password)
    // The document: written only for a created user, keyed by the lower-cased email.
    ensures r.document.Some? <==> r.account.Some? && create == CreateSuccess(true)
    ensures r.document.Some? ==>
              r.document.value == UserDocument(Lowercase(s.email), s.firstName, s.lastName, s.email, true)
    ensures r.account.Some? && create.CreateFailure? ==> r.screen == Alert(s, create.description)
    ensures r.account.Some? && create == CreateSuccess(false) ==> r.screen == s
    // The customer: requested only after the document write succeeds.
    ensures r.customer.Some? <==> r.document.Some? && write.WriteSuccess?
    ensures r.customer.Some? ==> r.customer.value == CustomerRequest(s.email, s.firstName, s.lastName, s.password)
    ensures r.document.Some? && write.WriteFailure? ==> r.screen == Alert(s, SAVE_FAILED_PREFIX + write.description)
    ensures r.customer.Some? && CartManager.CreateCustomer(customer).Some? ==>
              r.screen == Alert(s, SIGN_UP_SUCCESS).(isUserSignedUp := true)
    ensures r.customer.Some? && CartManager.CreateCustomer(customer).None? ==> r.screen == Alert(s, CUSTOMER_FAILED)
    // The form's fields are never edited by the action.
    ensures r.screen.email == s.email && r.screen.password == s.password && r.screen.hasAcceptedEula == s.hasAcceptedEula
  {
    if s.password != s.confirmPassword then SignUpEffect(Alert(s, PASSWORDS_DO_NOT_MATCH), None, None, None)
    else if !s.hasAcceptedEula then SignUpEffect(Alert(s, MUST_ACCEPT_EULA), None, None, None)
    else
      var account := Some((s.email, s.password));
      match create
      case CreateFailure(d) => SignUpEffect(Alert(s, d), account, None, None)
      case CreateSuccess(hasUser) =>
        if !hasUser then SignUpEffect(s, account, None, None)
        else
          var doc := UserDocument(Lowercase(s.email), s.firstName, s.lastName, s.email, s.hasAcceptedEula);
          match write
          case WriteFailure(d) => SignUpEffect(Alert(s, SAVE_FAILED_PREFIX + d), account, Some(doc), None)
          case WriteSuccess =>
            var req := CustomerRequest(s.email, s.firstName, s.lastName, s.password);
            if CartManager.CreateCustomer(customer).Some? then
              SignUpEffect(Alert(s, SIGN_UP_SUCCESS).(isUserSignedUp := true), account, Some(doc), Some(req))
            else
              SignUpEffect(Alert(s, CUSTOMER_FAILED), account, Some(doc), Some(req))
  }

  /** The form becomes signed up exactly when the guards pass and the account, the
      document and the storefront customer are all created; an alert is shown whenever
      the account is not both created with a user and stored. */
  lemma SignedUpOnlyAfterAllSucceed(s: SignUpState, create: CreateUserOutcome, write: WriteOutcome, customer: CartManager.CustomerOutcome)
    requires !s.isUserSignedUp
    ensures SignUpUser(s, create, write, customer).screen.isUserSignedUp <==>
              s.password == s.confirmPassword && s.hasAcceptedEula && create == CreateSuccess(true)
              && write.WriteSuccess? && CartManager.CreateCustomer(customer).Some?
    ensures SignUpUser(s, create, write, customer).screen.isUserSignedUp ==>
              SignUpUser(s, create, write, customer).document.value.hasAcceptedEula
  {
  }

  /** Emails that differ only in ASCII letter case get the same document, and a document
      id never holds an upper-case ASCII letter. */
  lemma DocumentIdIgnoresCase(s: SignUpState, t: SignUpState, create: CreateUserOutcome, write: WriteOutcome, customer: CartManager.CustomerOutcome)
    requires |s.email| == |t.email|
    requires forall i :: 0 <= i < |s.email| ==> LowerChar(s.email[i]) == LowerChar(t.email[i])
    ensures SignUpUser(s, create, write, customer).document.Some? && SignUpUser(t, create, write, customer).document.Some? ==>
              SignUpUser(s, create, write, customer).document.value.documentId
              == SignUpUser(t, create, write, customer).document.value.documentId
    ensures SignUpUser(s, create, write, customer).document.Some? ==>
              NoAsciiUpper(SignUpUser(s, create, write, customer).document.value.documentId)
  {
    LowercaseFacts(s.email, t.email);
  }
}
