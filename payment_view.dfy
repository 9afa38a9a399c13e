/**
 * The payment view: the schema of the new-payment form, the section of the form
 * shown for each payment method, and the labels, icons and status badges of
 * the payment history table.
 */
module PaymentView {
  import opened Wrappers

  const PaymentMethods: set<string> := {"credit_card", "debit_card", "cash", "app"}

  /** The payment form's values; the four card fields may be absent. */
  datatype PaymentValues = PaymentValues(
    licensePlate: string,
    amount: real,
    paymentMethod: string,
    cardNumber: Option<string>,
    cardExpiry: Option<string>,
    cardCvc: Option<string>,
    cardName: Option<string>)

  datatype PaymentField = LicensePlate | Amount | PaymentMethod

  /** The license-plate rule: between 5 and 7 characters. */
  predicate ValidLicensePlate(plate: string) {
    5 <= |plate| <= 7
  }

  /** The fields the schema rejects. The card fields are optional strings and never rejected. */
  function Errors(v: PaymentValues): (r: set<PaymentField>)
    ensures LicensePlate in r <==> !(5 <= |v.licensePlate| <= 7)
    ensures Amount in r <==> v.amount <= 0.0
    ensures PaymentMethod in r <==> v.paymentMethod !in PaymentMethods
  {
    (if ValidLicensePlate(v.licensePlate) then {} else {LicensePlate})
    + (if v.amount > 0.0 then {} else {Amount})
    + (if v.paymentMethod in PaymentMethods then {} else {PaymentMethod})
  }

  predicate Valid(v: PaymentValues) {
    Errors(v) == {}
  }

  /** The untouched form: empty plate, amount 0, credit card, no card fields. */
  function Defaults(): PaymentValues {
    PaymentValues("", 0.0, "credit_card", None, None, None, None)
  }

  /** The untouched form is rejected on its plate and its amount. */
  lemma DefaultsRejected()
    ensures Errors(Defaults()) == {LicensePlate, Amount}
  {
  }

  /** Whether the card fields are filled in, and with what, never decides validity, for any method. */
  lemma CardFieldsOptional(v: PaymentValues, number: Option<string>, expiry: Option<string>,
                           cvc: Option<string>, name: Option<string>)
    ensures Errors(v.(cardNumber := number, cardExpiry := expiry, cardCvc := cvc, cardName := name))
            == Errors(v)
  {
  }

  /** The part of the form shown under the method selector. */
  datatype DetailSection = CardDetails | CashNote | AppNote

  /** The sections shown for the watched payment method. */
  function DetailSections(m: string): (r: set<DetailSection>)
    ensures CardDetails in r <==> m == "credit_card" || m == "debit_card"
    ensures CashNote in r <==> m == "cash"
    ensures AppNote in r <==> m == "app"
  {
    (if m == "credit_card" || m == "debit_card" then {CardDetails} else {})
    + (if m == "cash" then {CashNote} else {})
    + (if m == "app" then {AppNote} else {})
  }

  /** At most one section is shown, and exactly one for each accepted method. */
  lemma DetailSectionsExclusive(m: string)
    ensures |DetailSections(m)| <= 1
    ensures m in PaymentMethods ==> |DetailSections(m)| == 1
  {
  }

  /** The label of a payment method in the history table; an unknown method is shown as it is. */
  function PaymentMethodLabel(m: string): (r: string)
    ensures m !in PaymentMethods ==> r == m
  {
    match m
    case "credit_card" => "Tarjeta de Crédito"
    case "debit_card" => "Tarjeta de Débito"
    case "cash" => "Efectivo"
    case "app" => "Aplicación"
    case _ => m
  }

  /** The four accepted methods get four different labels, none of them a method key. */
  lemma PaymentMethodLabelsDistinct(m1: string, m2: string)
    requires m1 in PaymentMethods && m2 in PaymentMethods
    ensures PaymentMethodLabel(m1) == PaymentMethodLabel(m2) <==> m1 == m2
    ensures PaymentMethodLabel(m1) !in PaymentMethods
  {
  }

  datatype Icon = CreditCardIcon | WalletIcon | ReceiptIcon

  /** The icon of a payment method: the card icon for both card methods and for unknown ones. */
  function PaymentMethodIcon(m: string): (r: Icon)
    ensures r == WalletIcon <==> m == "cash"
    ensures r == ReceiptIcon <==> m == "app"
  {
    match m
    case "credit_card" => CreditCardIcon
    case "debit_card" => CreditCardIcon
    case "cash" => WalletIcon
    case "app" => ReceiptIcon
    case _ => CreditCardIcon
  }

  /** Every method other than cash and app, known or not, shows the card icon. */
  lemma CardIconFallback(m: string)
    requires m != "cash" && m != "app"
    ensures PaymentMethodIcon(m) == CreditCardIcon
  {
  }

  datatype Tone = Green | Yellow | Red | Gray

  /** A status badge: its text and its colour. */
  datatype Badge = Badge(text: string, tone: Tone)

  /** The badge of a payment status; an unknown status is shown as it is, in grey. */
  function StatusBadge(status: string): (r: Badge)
    ensures r.tone == Gray <==> status !in {"completed", "pending", "failed"}
    ensures r.tone == Gray ==> r.text == status
  {
    match status
    case "completed" => Badge("Completado", Green)
    case "pending" => Badge("Pendiente", Yellow)
    case "failed" => Badge("Fallido", Red)
    case _ => Badge(status, Gray)
  }
}
