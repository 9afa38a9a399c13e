/**
 * The frequent-user registration form: its schema and its blank form. The
 * e-mail format check belongs to the validation library and is passed in as
 * `isEmail`; every other rule is a length, enum or literal check.
 */
module FrequentUserForm {
  import PaymentView

  const DocumentTypes: set<string> := {"cedula", "pasaporte", "extranjeria"}
  const VehicleTypes: set<string> := {"car", "motorcycle", "bicycle", "truck"}

  datatype FrequentUserValues = FrequentUserValues(
    fullName: string,
    email: string,
    phone: string,
    documentType: string,
    documentNumber: string,
    vehicleType: string,
    licensePlate: string,
    vehicleBrand: string,
    vehicleModel: string,
    address: string,
    preferredLocation: string,
    tosAccepted: bool)

  datatype UserField =
    | FullName | Email | Phone | DocumentType | DocumentNumber | VehicleType
    | LicensePlate | VehicleBrand | VehicleModel | Address | TosAccepted

  /** The license-plate rule of this form: between 5 and 7 characters. */
  predicate ValidLicensePlate(plate: string) {
    5 <= |plate| <= 7
  }

  const AllFields: set<UserField> :=
    {FullName, Email, Phone, DocumentType, DocumentNumber, VehicleType,
     LicensePlate, VehicleBrand, VehicleModel, Address, TosAccepted}

  /** The schema's rule for one field. */
  predicate FieldOk(v: FrequentUserValues, isEmail: string -> bool, f: UserField) {
    match f
    case FullName => 5 <= |v.fullName|
    case Email => isEmail(v.email)
    case Phone => 10 <= |v.phone|
    case DocumentType => v.documentType in DocumentTypes
    case DocumentNumber => 5 <= |v.documentNumber|
    case VehicleType => v.vehicleType in VehicleTypes
    case LicensePlate => ValidLicensePlate(v.licensePlate)
    case VehicleBrand => 2 <= |v.vehicleBrand|
    case VehicleModel => 2 <= |v.vehicleModel|
    case Address => 10 <= |v.address|
    case TosAccepted => v.tosAccepted
  }

  /**
   * The fields the schema rejects. The phone is checked by length only, and the
   * preferred location accepts any text, so it never appears.
   */
  function Errors(v: FrequentUserValues, isEmail: string -> bool): (r: set<UserField>)
    ensures FullName in r <==> |v.fullName| < 5
    ensures Email in r <==> !isEmail(v.email)
    ensures Phone in r <==> |v.phone| < 10
    ensures DocumentType in r <==> v.documentType !in DocumentTypes
    ensures DocumentNumber in r <==> |v.documentNumber| < 5
    ensures VehicleType in r <==> v.vehicleType !in VehicleTypes
    ensures LicensePlate in r <==> !(5 <= |v.licensePlate| <= 7)
    ensures VehicleBrand in r <==> |v.vehicleBrand| < 2
    ensures VehicleModel in r <==> |v.vehicleModel| < 2
    ensures Address in r <==> |v.address| < 10
    ensures TosAccepted in r <==> !v.tosAccepted
  {
    set f | f in AllFields && !FieldOk(v, isEmail, f)
  }

  predicate Valid(v: FrequentUserValues, isEmail: string -> bool) {
    Errors(v, isEmail) == {}
  }

  /** The blank form: empty texts, cédula, car, terms not accepted. */
  function Defaults(): FrequentUserValues {
    FrequentUserValues("", "", "", "cedula", "", "car", "", "", "", "", "", false)
  }

  /**
   * The blank form fails on every text field with a minimum length and on the
   * terms, whatever the e-mail check says of the empty e-mail; its two enum
   * choices are acceptable.
   */
  lemma BlankFormRejected(isEmail: string -> bool)
    ensures Errors(Defaults(), isEmail)
            == {FullName, Phone, DocumentNumber, LicensePlate, VehicleBrand, VehicleModel, Address, TosAccepted}
               + (if isEmail("") then {} else {Email})
    ensures !Valid(Defaults(), isEmail)
  {
  }

  /** Without the terms accepted no form is valid, whatever its other fields hold. */
  lemma TermsRequired(v: FrequentUserValues, isEmail: string -> bool)
    requires !v.tosAccepted
    ensures !Valid(v, isEmail)
  {
  }

  /** The preferred location never affects validity, the empty default included. */
  lemma PreferredLocationFree(v: FrequentUserValues, isEmail: string -> bool, loc: string)
    ensures Errors(v.(preferredLocation := loc), isEmail) == Errors(v, isEmail)
  {
    var w := v.(preferredLocation := loc);
    forall f ensures FieldOk(w, isEmail, f) == FieldOk(v, isEmail, f) { }
  }

  /** This form's plate rule is the payment form's plate rule. */
  lemma SamePlateRuleAsPayment(plate: string)
    ensures ValidLicensePlate(plate) <==> PaymentView.ValidLicensePlate(plate)
  {
  }
}
