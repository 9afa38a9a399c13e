/**
 * The parking-rate form: its schema, the vehicle-type enumeration it parses,
 * and the record its submit handler builds. Numbers arrive already coerced;
 * JavaScript numbers are modelled as reals.
 */
module ParkingRateForm {
  import opened Wrappers
  import opened Records

  datatype VehicleType = Car | Motorcycle | Bicycle | Truck

  /** The string under which each vehicle type travels in form values. */
  function VehicleTypeKey(t: VehicleType): string {
    match t
    case Car => "car"
    case Motorcycle => "motorcycle"
    case Bicycle => "bicycle"
    case Truck => "truck"
  }

  /** The schema's enum check: one of the four keys, or nothing. */
  function ParseVehicleType(s: string): (r: Option<VehicleType>)
    ensures r.Some? ==> VehicleTypeKey(r.value) == s
    ensures r.None? ==> forall t :: VehicleTypeKey(t) != s
  {
    if s == "car" then Some(Car)
    else if s == "motorcycle" then Some(Motorcycle)
    else if s == "bicycle" then Some(Bicycle)
    else if s == "truck" then Some(Truck)
    else None
  }

  /** Parsing the key of a vehicle type gives that type back. */
  lemma ParseKeyRoundTrip(t: VehicleType)
    ensures ParseVehicleType(VehicleTypeKey(t)) == Some(t)
  {
  }

  /** The values of the form, before the schema has parsed the vehicle type. */
  datatype RateValues = RateValues(name: string, hourlyRate: real, dailyRate: real, vehicleType: string)

  /** A parking rate without its id (`Omit<ParkingRate, "id">`). */
  datatype RateFields = RateFields(name: string, hourlyRate: real, dailyRate: real, vehicleType: VehicleType)

  type ParkingRate = Rec<RateFields>

  datatype RateField = Name | HourlyRate | DailyRate | VehicleTypeField

  /** The fields the schema rejects: it checks each field on its own. */
  function Errors(v: RateValues): (r: set<RateField>)
    ensures Name in r <==> |v.name| < 3
    ensures HourlyRate in r <==> v.hourlyRate <= 0.0
    ensures DailyRate in r <==> v.dailyRate <= 0.0
    ensures VehicleTypeField in r <==> v.vehicleType !in {"car", "motorcycle", "bicycle", "truck"}
  {
    (if 3 <= |v.name| then {} else {Name})
    + (if 0.0 < v.hourlyRate then {} else {HourlyRate})
    + (if 0.0 < v.dailyRate then {} else {DailyRate})
    + (if ParseVehicleType(v.vehicleType).Some? then {} else {VehicleTypeField})
  }

  predicate Valid(v: RateValues) {
    Errors(v) == {}
  }

  /** The values as the schema outputs them, with the vehicle type parsed. */
  function Parsed(v: RateValues): (r: RateFields)
    requires Valid(v)
    ensures ValuesOf(r) == v
  {
    RateFields(v.name, v.hourlyRate, v.dailyRate, ParseVehicleType(v.vehicleType).value)
  }

  /** The form values showing a stored rate. */
  function ValuesOf(f: RateFields): (r: RateValues)
    ensures ParseVehicleType(r.vehicleType) == Some(f.vehicleType)
    ensures r.name == f.name && r.hourlyRate == f.hourlyRate && r.dailyRate == f.dailyRate
  {
    RateValues(f.name, f.hourlyRate, f.dailyRate, VehicleTypeKey(f.vehicleType))
  }

  /** Showing a valid rate in the form and parsing the values again gives back that rate. */
  lemma ValuesParsedRoundTrip(f: RateFields)
    requires Valid(ValuesOf(f))
    ensures Parsed(ValuesOf(f)) == f
  {
  }

  /** The blank form: empty name, 5000 per hour, 25000 per day, car. */
  function Defaults(): RateValues {
    RateValues("", 5000.0, 25000.0, "car")
  }

  /** The values the form opens with: the rate being edited, or the blank form. */
  function InitialValues(initial: Option<ParkingRate>): RateValues {
    if initial.Some? then ValuesOf(initial.value.fields) else Defaults()
  }

  /**
   * Submitting the form: the schema must accept the values; when editing, the
   * rate keeps the id of the rate being edited and takes every other field from
   * the parsed values; when adding, only the parsed values are passed on.
   */
  function HandleSubmit(initial: Option<ParkingRate>, v: RateValues): (r: Option<Submission<RateFields>>)
    ensures r.Some? <==> Errors(v) == {}
    ensures r.Some? && initial.Some? ==>
              r.value.Existing? && r.value.rec.id == initial.value.id && ValuesOf(r.value.rec.fields) == v
    ensures r.Some? && initial.None? ==> r.value.New? && ValuesOf(r.value.fields) == v
  {
    if !Valid(v) then None
    else if initial.Some? then Some(Existing(Rec(initial.value.id, Parsed(v))))
    else Some(New(Parsed(v)))
  }

  /** The blank form fails on the name alone: its rates and vehicle type are acceptable. */
  lemma BlankFormRejected()
    ensures Errors(Defaults()) == {Name}
    ensures HandleSubmit(None, Defaults()) == None
  {
  }

  /** Opening a valid rate for editing and submitting it unchanged gives back that rate. */
  lemma UnchangedEditRoundTrip(rate: ParkingRate)
    requires rate.fields.hourlyRate > 0.0 && rate.fields.dailyRate > 0.0 && |rate.fields.name| >= 3
    ensures HandleSubmit(Some(rate), InitialValues(Some(rate))) == Some(Existing(rate))
  {
  }
}
