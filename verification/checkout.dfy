/**
 The checkout wizard (frontend/src/pages/Checkout.tsx): three steps
 (shipping, payment, confirmation), the shipping-form validation, the order
 payload posted after the payment is captured, and what the page does with
 the outcome. The payment provider and the HTTP call are inputs: an
 approval event carries whether the capture and the order request
 succeeded.
 */
module Checkout {
  import opened Wrappers
  import opened Text
  import opened ProductSchema
  import opened OrderSchema
  import opened Cart
  import OrderController

  const MissingFieldsMessage := "Por favor completa todos los campos requeridos"
  const OrderFailedMessage := "Error al procesar la orden. Por favor intenta nuevamente."
  const CaptureFailedMessage := "Error al procesar el pago. Por favor intenta nuevamente."
  const ProviderErrorMessage := "Error en el pago. Por favor intenta nuevamente."
  const CancelledMessage := "Pago cancelado. Por favor intenta nuevamente."

  /** The step labels; the last index is `|Steps| - 1 == 2`. */
  const Steps: seq<string> := ["Informaci\U{00F3}n de Env\U{00ED}o", "M\U{00E9}todo de Pago", "Confirmar Orden"]

  const EmptyShipping := Shipping("", "", "", "", "", "", "")

  /** The shipping form's field names. */
  datatype Field = FirstName | LastName | Address | City | State | ZipCode | Phone

  /** `handleInputChange`: the named field takes the typed value. */
  function SetField(sh: Shipping, f: Field, v: string): Shipping {
    match f
    case FirstName => sh.(firstName := v)
    case LastName => sh.(lastName := v)
    case Address => sh.(address := v)
    case City => sh.(city := v)
    case State => sh.(state := v)
    case ZipCode => sh.(zipCode := v)
    case Phone => sh.(phone := v)
  }

  /** The validation of step 0: every required field is non-empty after
      trimming. */
  predicate ShippingComplete(sh: Shipping) {
    forall i :: 0 <= i < 7 ==> Trim(ShippingFields(sh)[i]) != ""
  }

  /** A field fails the validation exactly when it is empty or holds only
      white space; a complete form therefore has no empty field. */
  lemma ShippingCompleteIffNoBlankField(sh: Shipping)
    ensures ShippingComplete(sh) <==> forall i :: 0 <= i < 7 ==> !IsBlank(ShippingFields(sh)[i])
    ensures ShippingComplete(sh) ==> forall i :: 0 <= i < 7 ==> ShippingFields(sh)[i] != ""
  {
    forall i | 0 <= i < 7 ensures Trim(ShippingFields(sh)[i]) == "" <==> IsBlank(ShippingFields(sh)[i]) {
      TrimEmptyIffBlank(ShippingFields(sh)[i]);
    }
  }

  /** The wizard: the active step, the error banner and the shipping form. */
  datatype Wizard = Wizard(step: int, error: string, shipping: Shipping)

  /** The wizard starts at step 0 with no error and an empty form. */
  const InitialWizard := Wizard(0, "", EmptyShipping)

  /** `handleNext`: at step 0 an incomplete form sets the error and stays;
      otherwise (and at every other step, without validation) the error is
      cleared and the step advances by one. */
  function HandleNext(w: Wizard): (r: Wizard)
    ensures r.shipping == w.shipping
    ensures r.step == w.step || r.step == w.step + 1
    ensures r.step == w.step <==> w.step == 0 && !ShippingComplete(w.shipping)
    ensures r.step == w.step ==> r.error == MissingFieldsMessage
    ensures r.step == w.step + 1 ==> r.error == ""
  {
    if w.step == 0 && !ShippingComplete(w.shipping) then w.(error := MissingFieldsMessage)
    else w.(error := "", step := w.step + 1)
  }

  /** `handleBack`: one step back, error cleared. */
  function HandleBack(w: Wizard): (r: Wizard)
    ensures r.step + 1 == w.step && r.error == "" && r.shipping == w.shipping
  {
    w.(step := w.step - 1, error := "")
  }

  /** The Back button is disabled at step 0. */
  predicate BackEnabled(w: Wizard) {
    w.step != 0
  }

  /** The Next button is not rendered at step 1 (the payment step). */
  predicate NextShown(w: Wizard) {
    w.step != 1
  }

  /** The label of the Next button: "Confirmar Orden" on the last step. */
  function NextLabel(w: Wizard): string {
    if w.step == |Steps| - 1 then "Confirmar Orden" else "Siguiente"
  }

  /** The order payload `createOrder` posts: the cart lines, the shipping
      form, the cart total and the captured payment with method "PayPal". */
  function OrderPayload(cart: seq<CartItem>, sh: Shipping, paypalId: string, paymentStatus: string)
    : (r: OrderController.OrderRequest)
    ensures r.items.Some? && |r.items.value| == |cart|
    ensures forall i :: 0 <= i < |cart| ==>
      r.items.value[i] == OrderController.LineRequest(cart[i].product.id, cart[i].product.name, cart[i].quantity, cart[i].product.price)
    ensures r.shipping == sh && r.totalAmount == Total(cart)
    ensures r.payment == PaymentDetails(paypalId, paymentStatus, PayPal)
  {
    var lines := seq(|cart|, i requires 0 <= i < |cart| =>
      OrderController.LineRequest(cart[i].product.id, cart[i].product.name, cart[i].quantity, cart[i].product.price));
    OrderController.OrderRequest(Some(lines), sh, PaymentDetails(paypalId, paymentStatus, PayPal), Total(cart))
  }

  /** What the payment provider and the order request did after the buyer
      approved the payment. */
  datatype ApprovalOutcome = CaptureFailed | OrderRejected | OrderAccepted

  /** The user's and the payment widget's events on the page. */
  datatype Event =
    | Type(field: Field, value: string)
    | ClickNext
    | ClickBack
    | Approve(paypalId: string, paymentStatus: string, outcome: ApprovalOutcome)
    | ProviderError
    | Cancel

  /** The page: the wizard, the cart, the order payloads posted so far, and
      whether the browser has left for the success page. */
  datatype Session = Session(wizard: Wizard, cart: seq<CartItem>, posted: seq<OrderController.OrderRequest>, done: bool)

  function Start(cart: seq<CartItem>): Session {
    Session(InitialWizard, cart, [], false)
  }

  /** One event, applied only when the control that raises it is on the
      page: the form exists at step 0, Next unless at step 1, Back unless
      at step 0, and the payment buttons at step 1. After the navigation to
      the success page nothing more happens here. An approval posts the
      payload; an accepted order clears the cart and leaves, a refused one
      sets the error and keeps the cart. */
  function OnEvent(ss: Session, ev: Event): (r: Session)
    ensures ss.done ==> r == ss
    ensures r.wizard.step != ss.wizard.step ==> ev.ClickNext? || ev.ClickBack?
    ensures !r.done ==> r.cart == ss.cart
    ensures |r.posted| == |ss.posted| || (|r.posted| == |ss.posted| + 1 && ev.Approve? && ss.wizard.step == 1)
  {
    var w := ss.wizard;
    if ss.done then ss
    else
      match ev
      case Type(f, v) =>
        if w.step == 0 then ss.(wizard := w.(shipping := SetField(w.shipping, f, v))) else ss
      case ClickNext =>
        if NextShown(w) then ss.(wizard := HandleNext(w)) else ss
      case ClickBack =>
        if BackEnabled(w) then ss.(wizard := HandleBack(w)) else ss
      case Approve(id, status, outcome) =>
        if w.step != 1 then ss
        else
          (match outcome
           case CaptureFailed => ss.(wizard := w.(error := CaptureFailedMessage))
           case OrderRejected =>
             ss.(wizard := w.(error := OrderFailedMessage),
                 posted := ss.posted + [OrderPayload(ss.cart, w.shipping, id, status)])
           case OrderAccepted =>
             ss.(cart := [], done := true,
                 posted := ss.posted + [OrderPayload(ss.cart, w.shipping, id, status)]))
      case ProviderError =>
        if w.step == 1 then ss.(wizard := w.(error := ProviderErrorMessage)) else ss
      case Cancel =>
        if w.step == 1 then ss.(wizard := w.(error := CancelledMessage)) else ss
  }

  function Run(ss: Session, evs: seq<Event>): Session
    decreases |evs|
  {
    if |evs| == 0 then ss else Run(OnEvent(ss, evs[0]), evs[1..])
  }

  /** What holds of every session the page can reach. */
  predicate Reachable(ss: Session, cart: seq<CartItem>) {
    && ss.wizard.step in {0, 1}
    && (ss.wizard.step == 1 ==> ShippingComplete(ss.wizard.shipping))
    && (!ss.done ==> ss.cart == cart)
    && (ss.done ==> ss.cart == [])
    && (forall i :: 0 <= i < |ss.posted| ==>
          && ss.posted[i] == OrderPayload(cart, ss.posted[i].shipping, ss.posted[i].payment.id, ss.posted[i].payment.status)
          && ShippingComplete(ss.posted[i].shipping))
  }

  lemma OnEventKeepsReachable(ss: Session, ev: Event, cart: seq<CartItem>)
    requires Reachable(ss, cart)
    ensures Reachable(OnEvent(ss, ev), cart)
  {
  }

  /** Through the page's own controls the wizard never leaves steps 0 and
      1: the confirmation step is unreachable, since Next is hidden at
      step 1. Step 1 is only entered with a complete shipping form, which
      can no longer be edited there; so every payload posted carries a
      complete address, the cart lines and the cart total. The cart is
      cleared only by an accepted order. */
  lemma {:induction false} RunStaysReachable(cart: seq<CartItem>, evs: seq<Event>)
    ensures Reachable(Run(Start(cart), evs), cart)
  {
    RunFromReachable(Start(cart), evs, cart);
  }

  lemma {:induction false} RunFromReachable(ss: Session, evs: seq<Event>, cart: seq<CartItem>)
    requires Reachable(ss, cart)
    ensures Reachable(Run(ss, evs), cart)
    decreases |evs|
  {
    if |evs| > 0 {
      OnEventKeepsReachable(ss, evs[0], cart);
      RunFromReachable(OnEvent(ss, evs[0]), evs[1..], cart);
    }
  }

  /** The last step, "Confirmar Orden", is never displayed: through any
      run from the start the current step's label is one of the first two,
      and the Next button never carries the confirmation label. */
  lemma {:induction false} ConfirmStepNeverShown(cart: seq<CartItem>, evs: seq<Event>)
    ensures var w := Run(Start(cart), evs).wizard;
      && 0 <= w.step < |Steps| - 1
      && Steps[w.step] != "Confirmar Orden"
      && NextLabel(w) == "Siguiente"
  {
    RunStaysReachable(cart, evs);
  }

  /** Leaving step 1 other than by success takes the Back button: a Next
      click is ignored there and payment events keep the step. */
  lemma StepOneLeftOnlyByBack(ss: Session, ev: Event)
    requires !ss.done && ss.wizard.step == 1
    ensures var r := OnEvent(ss, ev);
      r.wizard.step != 1 ==> ev == ClickBack && r.wizard.step == 0 && r.wizard.error == ""
  {
  }

  /** What the route renders: the login page for a visitor, the empty-cart
      notice for an empty cart, otherwise the wizard. */
  datatype Screen = RedirectToLogin | EmptyCartNotice | WizardScreen

  function CheckoutScreen(isAuthenticated: bool, cart: seq<CartItem>): (r: Screen)
    ensures r == WizardScreen <==> isAuthenticated && |cart| > 0
    ensures r == RedirectToLogin <==> !isAuthenticated
  {
    if !isAuthenticated then RedirectToLogin
    else if |cart| == 0 then EmptyCartNotice
    else WizardScreen
  }
}
