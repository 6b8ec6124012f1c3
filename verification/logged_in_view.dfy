/** `LoggedInView` and `RootTabView`: the EULA lookup that gates the main tabs, storing an
    acceptance, the profile tab's name, and the cart tab's badge and Clear control.
 */
module LoggedIn {
  import opened Wrappers
  import opened Storefront
  import Eula
  import CartManager
  import Catalog
  import SignUp

  /** A Firestore field value, as far as the casts the view makes can tell. */
  datatype FieldValue = BoolField(flag: bool) | StringField(text: string) | OtherField

  /** A `users` document. */
  datatype Document = Document(documentId: string, data: map<string, FieldValue>)

  /** What a `users` query's callback receives: an error, or a snapshot whose document list
      may be missing. */
  datatype QueryOutcome = QueryFailure | QuerySuccess(documents: Option<seq<Document>>)

  /** The view's `@State`. */
  datatype LoggedInState = LoggedInState(userName: string, hasAcceptedEula: bool, isLoading: bool)

  const DEFAULT_USER_NAME: string := "Profile"
  const INITIAL_STATE: LoggedInState := LoggedInState(DEFAULT_USER_NAME, false, true)

  const HAS_ACCEPTED_EULA_FIELD: string := "hasAcceptedEula"
  const FIRST_NAME_FIELD: string := "firstName"

  /** The first document of a successful, non-empty query. */
  function FirstDocument(outcome: QueryOutcome): (r: Option<Document>)
    ensures r.Some? <==> outcome.QuerySuccess? && outcome.documents.Some? && |outcome.documents.value| > 0
    ensures r.Some? ==> r.value == outcome.documents.value[0]
  {
    if outcome.QuerySuccess? && outcome.documents.Some? && |outcome.documents.value| > 0
    then Some(outcome.documents.value[0]) else None
  }

  /** `data["hasAcceptedEula"] as? Bool ?? false`. */
  function AcceptedIn(d: Document): (r: bool)
    ensures r <==> HAS_ACCEPTED_EULA_FIELD in d.data && d.data[HAS_ACCEPTED_EULA_FIELD] == BoolField(true)
  {
    if HAS_ACCEPTED_EULA_FIELD in d.data && d.data[HAS_ACCEPTED_EULA_FIELD].BoolField?
    then d.data[HAS_ACCEPTED_EULA_FIELD].flag else false
  }

  /** `checkEulaAcceptance()`: the state afterwards and the email queried (none without a
      current user's email). Every path stops loading; only a found document sets the flag. */
  function CheckEulaAcceptance(s: LoggedInState, userEmail: Option<string>, outcome: QueryOutcome): (r: (LoggedInState, Option<string>))
    ensures !r.0.isLoading && r.0.userName == s.userName
    ensures r.1 == userEmail
    ensures userEmail.Some? && FirstDocument(outcome).Some? ==> r.0.hasAcceptedEula == AcceptedIn(FirstDocument(outcome).value)
    ensures userEmail.None? || FirstDocument(outcome).None? ==> r.0.hasAcceptedEula == s.hasAcceptedEula
  {
    if userEmail.None? then (s.(isLoading := false), None)
    else match FirstDocument(outcome)
      case Some(d) => (s.(hasAcceptedEula := AcceptedIn(d), isLoading := false), userEmail)
      case None => (s.(isLoading := false), userEmail)
  }

  /** What the view's body shows. */
  datatype Screen = LoadingScreen | MainTabs | EulaScreen

  function Gate(s: LoggedInState): (r: Screen)
    ensures r == MainTabs <==> !s.isLoading && s.hasAcceptedEula
    ensures r == LoadingScreen <==> s.isLoading
  {
    if s.isLoading then LoadingScreen else if s.hasAcceptedEula then MainTabs else EulaScreen
  }

  /** From a fresh view, the main tabs appear after the lookup exactly when the user's
      document records an acceptance. */
  lemma TabsOnlyForAcceptedUsers(userEmail: Option<string>, outcome: QueryOutcome)
    ensures Gate(CheckEulaAcceptance(INITIAL_STATE, userEmail, outcome).0) == MainTabs <==>
              userEmail.Some? && FirstDocument(outcome).Some? && AcceptedIn(FirstDocument(outcome).value)
    ensures Gate(CheckEulaAcceptance(INITIAL_STATE, userEmail, outcome).0) != LoadingScreen
  {
  }

  /** The effect of `storeEulaAcceptance()`: the state afterwards and the document updated. */
  datatype StoreEffect = StoreEffect(state: LoggedInState, updated: Option<string>)

  /** `storeEulaAcceptance()`: find the user's first document and set its flag; the local
      flag becomes true only once that update succeeds. */
  function StoreEulaAcceptance(s: LoggedInState, userEmail: Option<string>, query: QueryOutcome, updateOk: bool): (r: StoreEffect)
    ensures r.updated.Some? <==> userEmail.Some? && FirstDocument(query).Some?
    ensures r.updated.Some? ==> r.updated.value == FirstDocument(query).value.documentId
    ensures r.updated.Some? && updateOk ==> r.state == s.(hasAcceptedEula := true)
    ensures !(r.updated.Some? && updateOk) ==> r.state == s
  {
    if userEmail.None? then StoreEffect(s, None)
    else match FirstDocument(query)
      case None => StoreEffect(s, None)
      case Some(d) => StoreEffect(if updateOk then s.(hasAcceptedEula := true) else s, Some(d.documentId))
  }

  /** The EULA screen's agree button, bound to the view's flag, with `storeEulaAcceptance`
      as its `onAccept`. */
  function AgreeOnEulaScreen(s: LoggedInState, form: Eula.EulaForm, userEmail: Option<string>, query: QueryOutcome, updateOk: bool): (r: StoreEffect)
    ensures Eula.AgreeDisabled(form) ==> r == StoreEffect(s, None)
    ensures !Eula.AgreeDisabled(form) ==> r == StoreEulaAcceptance(s.(hasAcceptedEula := true), userEmail, query, updateOk)
  {
    var pressed := Eula.PressAgree(form, s.hasAcceptedEula);
    var bound := s.(hasAcceptedEula := pressed.binding);
    if pressed.acceptCalls == 1 then StoreEulaAcceptance(bound, userEmail, query, updateOk)
    else StoreEffect(bound, None)
  }

  /** Agreeing opens the main tabs at once, whether or not the acceptance is stored:
      the binding is set before `onAccept` runs and the store never clears it. */
  lemma AgreeOpensTabs(s: LoggedInState, form: Eula.EulaForm, userEmail: Option<string>, query: QueryOutcome, updateOk: bool)
    requires Gate(s) == EulaScreen
    ensures var r := AgreeOnEulaScreen(s, form, userEmail, query, updateOk);
            Gate(r.state) == MainTabs <==> form.hasAgreed
  {
  }

  /** `fetchUserName()`: the first document's `firstName` string, or "Profile" when it has
      none; unchanged without an email, on an error, or without documents. */
  function FetchUserName(s: LoggedInState, userEmail: Option<string>, outcome: QueryOutcome): (r: LoggedInState)
    ensures r.hasAcceptedEula == s.hasAcceptedEula && r.isLoading == s.isLoading
    ensures userEmail.None? || FirstDocument(outcome).None? ==> r == s
    ensures userEmail.Some? && FirstDocument(outcome).Some? ==>
              var data := FirstDocument(outcome).value.data;
              if FIRST_NAME_FIELD in data && data[FIRST_NAME_FIELD].StringField?
              then r.userName == data[FIRST_NAME_FIELD].text
              else r.userName == DEFAULT_USER_NAME
  {
    if userEmail.None? then s
    else match FirstDocument(outcome)
      case None => s
      case Some(d) =>
        var name := if FIRST_NAME_FIELD in d.data && d.data[FIRST_NAME_FIELD].StringField? then d.data[FIRST_NAME_FIELD].text else DEFAULT_USER_NAME;
        s.(userName := name)
  }

  /** Fetching the name never changes what the gate shows, and a repeated fetch with the
      same answer changes nothing more. */
  lemma FetchUserNameKeepsGate(s: LoggedInState, userEmail: Option<string>, outcome: QueryOutcome)
    ensures Gate(FetchUserName(s, userEmail, outcome)) == Gate(s)
    ensures FetchUserName(FetchUserName(s, userEmail, outcome), userEmail, outcome) == FetchUserName(s, userEmail, outcome)
  {
  }

  /** The fields of the `users` document sign-up writes, as the queries read them back. */
  function StoredFields(d: SignUp.UserDocument): (r: map<string, FieldValue>)
    ensures FIRST_NAME_FIELD in r && r[FIRST_NAME_FIELD] == StringField(d.firstName)
    ensures HAS_ACCEPTED_EULA_FIELD in r && r[HAS_ACCEPTED_EULA_FIELD] == BoolField(d.hasAcceptedEula)
    ensures "email" in r && r["email"] == StringField(d.email)
  {
    map[FIRST_NAME_FIELD := StringField(d.firstName), "lastName" := StringField(d.lastName),
        "email" := StringField(d.email), HAS_ACCEPTED_EULA_FIELD := BoolField(d.hasAcceptedEula)]
  }

  /** When the lookup finds the document a sign-up wrote, the profile tab shows its first
      name and the gate opens the main tabs exactly when the document records acceptance,
      which it does for every completed sign-up. */
  lemma SignedUpDocumentIsRead(form: SignUp.SignUpState, create: SignUp.CreateUserOutcome,
                               write: SignUp.WriteOutcome, customer: CartManager.CustomerOutcome, userEmail: string)
    requires SignUp.SignUpUser(form, create, write, customer).document.Some?
    ensures var d := SignUp.SignUpUser(form, create, write, customer).document.value;
            var found := QuerySuccess(Some([Document(d.documentId, StoredFields(d))]));
            && FetchUserName(INITIAL_STATE, Some(userEmail), found).userName == d.firstName
            && Gate(CheckEulaAcceptance(INITIAL_STATE, Some(userEmail), found).0) == MainTabs
  {
  }

  /** The Clear control is offered when the cart's lines exist, which is whenever there is
      a cart. */
  predicate ShowsClear(cart: Option<Cart>)
  {
    cart.Some?
  }

  /** Tapping Clear resets the cart. */
  function TapClear(cart: Option<Cart>): (r: Option<Cart>)
    requires ShowsClear(cart)
    ensures r.None? && !ShowsClear(r)
    ensures r == CartManager.ResetCart(cart).cart
  {
    CartManager.ResetCart(cart).cart
  }

  /** The cart tab's badge is the same count as the product screen's, so after Clear it is
      0 and the control disappears; without a cart there is nothing to clear and no count. */
  lemma ClearZeroesBadge(cart: Option<Cart>)
    requires ShowsClear(cart)
    ensures Catalog.BadgeCount(TapClear(cart)) == 0
    ensures !ShowsClear(TapClear(cart))
    ensures Catalog.BadgeCount(cart) == cart.value.totalQuantity
  {
  }
}
