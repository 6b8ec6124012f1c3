/** `CartView` and `CartLines`: the quantity stepper, the in-flight update guard and busy
    flag, the remove-confirm flow, checkout enablement and the checkout sheet's
    complete/cancel handling. The cart is the manager's field; storefront outcomes are
    parameters.
 */
module CartView {
  import opened Wrappers
  import opened Storefront
  import CartManager

  // ---------------------------------------------------------------------------
  // Line rows

  /** The quantity a stepper tap requests: one more, or one less but never below 1.
      Swift traps on `Int32` overflow, so the tap needs room for the arithmetic. */
  function NewQuantity(quantity: Int32, increment: bool): (r: Int32)
    requires increment ==> quantity < INT32_MAX
    requires !increment ==> quantity > INT32_MIN
    ensures increment ==> r == quantity + 1
    ensures !increment ==> r >= 1 && (quantity > 1 ==> r == quantity - 1) && (quantity <= 1 ==> r == 1)
  {
    if increment then quantity + 1 else if quantity - 1 > 1 then quantity - 1 else 1
  }

  /** The control left of the quantity: a decrement button, or a trash button. */
  datatype LeftControl = DecrementButton | TrashButton

  /** The decrement button is offered only above quantity 1; at 1 (or below) the row offers
      removal instead, so a decrement never asks for less than 1. */
  function LeftControlFor(quantity: Int32): (r: LeftControl)
    ensures r.DecrementButton? <==> quantity > 1
    ensures r.DecrementButton? ==> NewQuantity(quantity, false) == quantity - 1
  {
    if quantity > 1 then DecrementButton else TrashButton
  }

  const DEFAULT_VARIANT_TITLE: string := "Default Title"

  /** The subtitle of a cart row: the variant title (marked when out of stock) unless it is
      the placeholder "Default Title" or the line is not a variant; then the product title. */
  function LineSubtitle(line: CartLine): (r: string)
    ensures line.merchandise.OtherMerchandise? ==> r == ""
    ensures line.merchandise.VariantMerchandise? && line.merchandise.variant.title == DEFAULT_VARIANT_TITLE ==>
              r == line.merchandise.productTitle
    ensures line.merchandise.VariantMerchandise? && line.merchandise.variant.title != DEFAULT_VARIANT_TITLE ==>
              r == StockLabel(line.merchandise.variant.title, line.merchandise.variant.availableForSale)
  {
    match line.merchandise
    case OtherMerchandise => ""
    case VariantMerchandise(v, productTitle) =>
      if v.title != DEFAULT_VARIANT_TITLE then StockLabel(v.title, v.availableForSale) else productTitle
  }

  // ---------------------------------------------------------------------------
  // The in-flight update guard, as written: one `updating` slot and `isBusy` mirroring it

  /** `CartLines`' `updating` slot; the `didSet` keeps `isBusy == (updating != nil)`. */
  datatype WrittenLines = WrittenLines(updating: Option<Id>, isBusy: bool)

  /** A stepper tap as written: ignored when this very line is in the slot; otherwise the
      line takes the slot (displacing any other line), busy is set through the `didSet`,
      and its update is requested (the boolean). */
  function WrittenBegin(s: WrittenLines, id: Id): (r: (WrittenLines, bool))
    ensures r.1 <==> s.updating != Some(id)
    ensures !r.1 ==> r.0 == s
    ensures r.1 ==> r.0.updating == Some(id) && r.0.isBusy
  {
    if s.updating == Some(id) then (s, false) else (WrittenLines(Some(id), true), true)
  }

  /** A completion as written: it empties the slot and clears busy whichever line it belongs
      to, even when another line has taken the slot since. */
  function WrittenFinish(s: WrittenLines, id: Id): (r: WrittenLines)
    ensures r.updating.None? && !r.isBusy
  {
    WrittenLines(None, false)
  }

  // ---------------------------------------------------------------------------
  // The in-flight update guard, corrected: the set of lines with an update in flight
  // (what the single slot evidently intends; see `WrittenGuardFails`)

  /** Lines whose update is in flight, and the busy flag derived from them. */
  datatype Lines = Lines(updating: set<Id>, isBusy: bool)

  const IdleLines: Lines := Lines({}, false)

  /** A stepper tap: ignored while this line's update is in flight; otherwise the line is
      marked in flight and its update is requested (the boolean). */
  function BeginUpdate(s: Lines, id: Id): (r: (Lines, bool))
    ensures id in s.updating ==> r == (s, false)
    ensures id !in s.updating ==> r.1 && r.0.updating == s.updating + {id} && r.0.isBusy
  {
    if id in s.updating then (s, false) else (Lines(s.updating + {id}, true), true)
  }

  /** The completion of line `id`'s update: only that line leaves the in-flight set. */
  function FinishUpdate(s: Lines, id: Id): (r: Lines)
    ensures r.updating == s.updating - {id}
    ensures r.isBusy <==> r.updating != {}
  {
    var rest := s.updating - {id};
    Lines(rest, rest != {})
  }

  /** A user tap or a delivered completion. */
  datatype LineEvent = Tap(id: Id) | Complete(id: Id)

  /** The rows together with the updates the storefront has not answered yet. */
  datatype Flight<S> = Flight(view: S, pending: multiset<Id>)

  /** A completion can only be delivered for a request in flight. */
  predicate Deliverable(pending: multiset<Id>, e: LineEvent)
  {
    e.Complete? ==> e.id in pending
  }

  function WrittenStep(f: Flight<WrittenLines>, e: LineEvent): Flight<WrittenLines>
  {
    match e
    case Tap(id) =>
      var (v, sent) := WrittenBegin(f.view, id);
      Flight(v, if sent then f.pending + multiset{id} else f.pending)
    case Complete(id) => Flight(WrittenFinish(f.view, id), f.pending - multiset{id})
  }

  function FixedStep(f: Flight<Lines>, e: LineEvent): Flight<Lines>
  {
    match e
    case Tap(id) =>
      var (v, sent) := BeginUpdate(f.view, id);
      Flight(v, if sent then f.pending + multiset{id} else f.pending)
    case Complete(id) => Flight(FinishUpdate(f.view, id), f.pending - multiset{id})
  }

  /** What the guard and the busy flag are meant to maintain: at most one update per line in
      flight, the rows know exactly which lines are in flight, and busy means some are. */
  ghost predicate GuardHolds(f: Flight<Lines>)
  {
    && (forall id :: f.pending[id] <= 1)
    && (forall id :: id in f.view.updating <==> id in f.pending)
    && (f.view.isBusy <==> |f.pending| > 0)
  }

  /** The corrected rows keep the guard through every tap and every deliverable completion. */
  lemma FixedStepKeepsGuard(f: Flight<Lines>, e: LineEvent)
    requires GuardHolds(f)
    requires Deliverable(f.pending, e)
    ensures GuardHolds(FixedStep(f, e))
  {
    var g := FixedStep(f, e);
    match e
    case Tap(id) =>
      if id !in f.view.updating {
        assert g.pending == f.pending + multiset{id};
        assert |g.pending| > 0;
      }
    case Complete(id) =>
      assert g.pending == f.pending - multiset{id};
      assert f.pending[id] == 1;
      assert g.pending[id] == 0;
      forall x ensures x in g.view.updating <==> x in g.pending {
        if x != id { assert g.pending[x] == f.pending[x]; }
      }
      if |g.pending| > 0 {
        var x :| x in g.pending;
        assert x in g.view.updating;
      }
      if g.view.updating != {} {
        var x :| x in g.view.updating;
        assert x in g.pending;
      }
  }

  /** The corrected rows start idle and stay guarded along any run of deliverable events. */
  lemma {:induction false} FixedRunKeepsGuard(f: Flight<Lines>, events: seq<LineEvent>)
    requires GuardHolds(f)
    ensures GuardHolds(FixedRun(f, events))
    decreases |events|
  {
    if |events| > 0 {
      if Deliverable(f.pending, events[0]) {
        FixedStepKeepsGuard(f, events[0]);
        FixedRunKeepsGuard(FixedStep(f, events[0]), events[1..]);
      } else {
        FixedRunKeepsGuard(f, events[1..]);
      }
    }
  }

  /** Events applied in order; a completion for nothing in flight cannot happen and is skipped. */
  function FixedRun(f: Flight<Lines>, events: seq<LineEvent>): Flight<Lines>
    decreases |events|
  {
    if |events| == 0 then f
    else FixedRun(if Deliverable(f.pending, events[0]) then FixedStep(f, events[0]) else f, events[1..])
  }

  lemma IdleIsGuarded()
    ensures GuardHolds(Flight(IdleLines, multiset{}))
  {
  }

  /** As written, tapping line "a", then line "b", then "a" again sends a second update for
      "a" while its first is in flight; and the completion of "a" clears the busy flag while
      "b"'s update is still in flight. */
  lemma WrittenGuardFails()
    ensures var f0 := Flight(WrittenLines(None, false), multiset{});
            var f3 := WrittenStep(WrittenStep(WrittenStep(f0, Tap("a")), Tap("b")), Tap("a"));
            f3.pending["a"] == 2
    ensures var f0 := Flight(WrittenLines(None, false), multiset{});
            var f3 := WrittenStep(WrittenStep(WrittenStep(f0, Tap("a")), Tap("b")), Complete("a"));
            !f3.view.isBusy && f3.pending["b"] == 1
  {
    var f0: Flight<WrittenLines> := Flight(WrittenLines(None, false), multiset{});
    var f1 := WrittenStep(f0, Tap("a"));
    assert f1.pending == multiset{"a"};
    var f2 := WrittenStep(f1, Tap("b"));
    assert "a" != "b";
    assert f2.pending == multiset{"a", "b"};
    assert f2.view.updating == Some("b");
    var f3 := WrittenStep(f2, Tap("a"));
    assert f3.pending == multiset{"a", "b", "a"};
    var g3 := WrittenStep(f2, Complete("a"));
    assert g3.pending == multiset{"b"};
  }

  // ---------------------------------------------------------------------------
  // The cart screen, running the rows' guard as written

  /** The cart screen's state: the manager's cart field, the rows' `updating` slot and busy
      flag, the remove dialog, the checkout flags and the shared `checkoutURL` binding. */
  datatype Screen = Screen(
    cart: Option<Cart>,
    lines: WrittenLines,
    itemToRemove: Option<Id>,
    showingConfirmation: bool,
    cartCompleted: bool,
    checkoutURL: Option<Url>,
    isShowingCheckout: bool)

  /** The empty state replaces the rows, the checkout button and its sheet when there is no
      cart or the cart has no lines. */
  predicate ShowsEmptyState(cart: Option<Cart>)
    ensures cart.None? ==> ShowsEmptyState(cart)
    ensures !ShowsEmptyState(cart) ==> cart.Some? && |cart.value.lines| > 0
  {
    cart.None? || |cart.value.lines| == 0
  }

  /** The checkout button is disabled while the rows are busy or without a URL; while busy
      mirrors the slot, that is while some line holds the slot. */
  predicate CheckoutDisabled(s: Screen)
    ensures s.lines.isBusy == s.lines.updating.Some? ==>
              (CheckoutDisabled(s) <==> s.lines.updating.Some? || s.checkoutURL.None?)
  {
    s.lines.isBusy || s.checkoutURL.None?
  }

  /** `onAppear` of the rows' container, which exists only for a cart with lines: the URL
      binding takes the cart's checkout URL, and setting it clears `cartCompleted` (the
      binding's `didSet`). An empty cart shows the empty state and nothing happens. */
  function OnAppear(s: Screen): (r: Screen)
    ensures ShowsEmptyState(s.cart) ==> r == s
    ensures !ShowsEmptyState(s.cart) ==> r == s.(checkoutURL := Some(s.cart.value.checkoutUrl), cartCompleted := false)
  {
    if !ShowsEmptyState(s.cart) then s.(checkoutURL := Some(s.cart.value.checkoutUrl), cartCompleted := false) else s
  }

  /** Appearing with a lined cart while no update is in flight enables checkout, and a tap
      then presents the sheet on that cart's checkout URL. */
  lemma AppearEnablesCheckout(s: Screen)
    requires !ShowsEmptyState(s.cart) && !s.lines.isBusy
    ensures !CheckoutDisabled(OnAppear(s))
    ensures var t := TapCheckout(OnAppear(s));
            t.isShowingCheckout && SheetShowsCheckout(t) && t.checkoutURL == Some(s.cart.value.checkoutUrl)
  {
  }

  /** A stepper tap on a row, as written: ignored when this line holds the slot; otherwise
      the line takes the slot, busy is set, and the manager's update is sent with the
      clamped quantity. The answer arrives later, through `DeliverUpdate`. */
  function TapStepper(s: Screen, line: CartLine, increment: bool): (r: (Screen, Option<CartManager.CartRequest>))
    requires increment ==> line.quantity < INT32_MAX
    requires !increment ==> line.quantity > INT32_MIN
    ensures s.lines.updating == Some(line.id) ==> r == (s, None)
    ensures s.lines.updating != Some(line.id) ==>
              && r.1 == Some(CartManager.UpdateRequest(s.cart, line.id, NewQuantity(line.quantity, increment)))
              && r.0 == s.(lines := WrittenLines(Some(line.id), true))
  {
    var (begun, sent) := WrittenBegin(s.lines, line.id);
    if !sent then (s, None)
    else (s.(lines := begun), Some(CartManager.UpdateRequest(s.cart, line.id, NewQuantity(line.quantity, increment))))
  }

  /** The completion of line `id`'s update: the manager's field takes the answer, the slot
      is emptied (whichever line holds it), the URL binding takes the cart's checkout URL,
      and nothing else on the screen changes. */
  function DeliverUpdate(s: Screen, id: Id, outcome: CartManager.MutationOutcome): (r: Screen)
    ensures r.cart == CartManager.AfterResponse(s.cart, outcome)
    ensures r.checkoutURL == CheckoutUrlOf(r.cart)
    ensures r.lines.updating.None? && !r.lines.isBusy
    ensures r.(cart := s.cart, lines := s.lines, checkoutURL := s.checkoutURL) == s
  {
    var delivered := CartManager.AfterResponse(s.cart, outcome);
    s.(cart := delivered, lines := WrittenFinish(s.lines, id), checkoutURL := CheckoutUrlOf(delivered))
  }

  /** One tap followed by its own answer is the manager's `updateQuantity`: the request and
      the cart are that call's, the binding takes the cart's URL, and the rows return to
      idle. In between the rows are busy, so checkout cannot start and a second tap on the
      same line sends nothing. */
  lemma StepperRoundTrip(s: Screen, line: CartLine, increment: bool, outcome: CartManager.MutationOutcome)
    requires increment ==> line.quantity < INT32_MAX
    requires !increment ==> line.quantity > INT32_MIN
    requires s.lines.updating != Some(line.id)
    ensures var (t, request) := TapStepper(s, line, increment);
            var step := CartManager.UpdateQuantity(s.cart, line.id, NewQuantity(line.quantity, increment), outcome);
            var u := DeliverUpdate(t, line.id, outcome);
            && request == step.request
            && t.lines.isBusy && TapCheckout(t) == t
            && TapStepper(t, line, increment) == (t, None)
            && u.cart == step.cart && u.checkoutURL == CheckoutUrlOf(step.cart)
            && u.lines == WrittenLines(None, false)
  {
  }

  /** On the screen, as written: with rows `a` and `b`, tapping a, b, then a again sends a
      second update for `a` while its first is unanswered; and when `a`'s answer arrives
      while `b`'s is still out, the rows stop being busy, so with a URL set a checkout tap
      presents the sheet while `b`'s update is pending. */
  lemma ScreenGuardFails(s: Screen, a: CartLine, b: CartLine, outcome: CartManager.MutationOutcome)
    requires a.id != b.id && a.quantity < INT32_MAX && b.quantity < INT32_MAX
    requires s.lines.updating.None?
    ensures var (t1, r1) := TapStepper(s, a, true);
            var (t2, r2) := TapStepper(t1, b, true);
            var (t3, r3) := TapStepper(t2, a, true);
            r1.Some? && r2.Some? && r3.Some?
    ensures var (t1, _) := TapStepper(s, a, true);
            var (t2, _) := TapStepper(t1, b, true);
            var u := DeliverUpdate(t2, a.id, outcome);
            !u.lines.isBusy && (u.checkoutURL.Some? ==> TapCheckout(u).isShowingCheckout)
  {
  }

  /** The trash button: remember the line and ask for confirmation. */
  function TapTrash(s: Screen, line: CartLine): (r: Screen)
    ensures r == s.(itemToRemove := Some(line.id), showingConfirmation := true)
  {
    s.(itemToRemove := Some(line.id), showingConfirmation := true)
  }

  /** Dismissing the dialog with Cancel removes nothing. */
  function CancelRemove(s: Screen): (r: Screen)
    ensures r == s.(showingConfirmation := false)
  {
    s.(showingConfirmation := false)
  }

  /** Confirming removal: only with a remembered line is a removal attempted; its completion
      (called only when the manager had a cart) stores the cart and its checkout URL. */
  function ConfirmRemove(s: Screen, outcome: CartManager.MutationOutcome): (r: (Screen, Option<CartManager.CartRequest>))
    ensures s.itemToRemove.None? ==> r == (s.(showingConfirmation := false), None)
    ensures r.1.Some? <==> s.itemToRemove.Some? && s.cart.Some?
    ensures r.1.Some? ==> r.1 == Some(CartManager.CartLinesRemove(s.cart.value.id, [s.itemToRemove.value]))
    ensures r.1.Some? ==> r.0.cart == CartManager.RemoveItem(s.cart, s.itemToRemove.value, outcome).cart
                          && r.0.checkoutURL == CheckoutUrlOf(r.0.cart)
    ensures r.1.None? ==> r.0 == s.(showingConfirmation := false)
  {
    var closed := s.(showingConfirmation := false);
    if s.itemToRemove.None? then (closed, None)
    else
      var step := CartManager.RemoveItem(s.cart, s.itemToRemove.value, outcome);
      match step.completion
      case None => (closed, step.request)
      case Some(delivered) => (closed.(cart := delivered, checkoutURL := CheckoutUrlOf(delivered)), step.request)
  }

  /** A removal goes through the dialog: trash then Cancel sends nothing and keeps the
      cart; trash then Remove asks the live cart to drop exactly that line, and without a
      cart nothing is sent and the cart stays absent. */
  lemma RemoveOnlyAfterConfirm(s: Screen, line: CartLine, outcome: CartManager.MutationOutcome)
    ensures var c := CancelRemove(TapTrash(s, line));
            c.cart == s.cart && !c.showingConfirmation && c.itemToRemove == Some(line.id)
    ensures s.cart.Some? ==>
              ConfirmRemove(TapTrash(s, line), outcome).1 == Some(CartManager.CartLinesRemove(s.cart.value.id, [line.id]))
    ensures s.cart.None? ==>
              ConfirmRemove(TapTrash(s, line), outcome).1.None? && ConfirmRemove(TapTrash(s, line), outcome).0.cart.None?
    ensures !ConfirmRemove(TapTrash(s, line), outcome).0.showingConfirmation
  {
  }

  /** The checkout button: opens the sheet when enabled (a disabled button ignores taps);
      a sheet it opens has a URL to render. */
  function TapCheckout(s: Screen): (r: Screen)
    ensures r.isShowingCheckout <==> s.isShowingCheckout || !CheckoutDisabled(s)
    ensures r == s.(isShowingCheckout := r.isShowingCheckout)
    ensures !s.isShowingCheckout && r.isShowingCheckout ==> SheetShowsCheckout(r)
  {
    if CheckoutDisabled(s) then s else s.(isShowingCheckout := true)
  }

  /** The sheet renders the checkout only when it is presented and a URL is set. */
  predicate SheetShowsCheckout(s: Screen)
  {
    s.isShowingCheckout && s.checkoutURL.Some?
  }

  /** The sheet's completion event only records that the checkout completed. */
  function OnCheckoutComplete(s: Screen): (r: Screen)
    ensures r == s.(cartCompleted := true)
  {
    s.(cartCompleted := true)
  }

  /** The sheet's cancel event: a completed checkout resets the cart and clears the flag;
      the sheet is dismissed either way. */
  function OnCheckoutCancel(s: Screen): (r: Screen)
    ensures !r.isShowingCheckout && !r.cartCompleted
    ensures s.cartCompleted ==> r.cart.None?
    ensures !s.cartCompleted ==> r == s.(isShowingCheckout := false)
    ensures r.lines == s.lines && r.checkoutURL == s.checkoutURL
  {
    if s.cartCompleted then s.(cart := CartManager.ResetCart(s.cart).cart, cartCompleted := false, isShowingCheckout := false)
    else s.(isShowingCheckout := false)
  }

  /** The sheet's failure event is only logged. */
  function OnCheckoutFail(s: Screen): (r: Screen)
    ensures r == s
  {
    s
  }

  /** Completing and then closing the sheet empties the cart; closing without completing
      keeps it. */
  lemma CompleteThenCancel(s: Screen)
    ensures ShowsEmptyState(OnCheckoutCancel(OnCheckoutComplete(s)).cart)
    ensures !s.cartCompleted ==> OnCheckoutCancel(s).cart == s.cart
  {
  }

  /** While an update is in flight, checkout cannot be started. */
  lemma BusyBlocksCheckout(s: Screen)
    requires s.lines.isBusy
    ensures TapCheckout(s) == s
  {
  }
}
