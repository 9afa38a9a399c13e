/**
 * The parking-location form: its schema (the validity check run before the
 * submit handler) and the record its submit handler builds. Numbers arrive
 * already coerced from the input fields; JavaScript numbers are modelled as reals.
 */
module ParkingLocationForm {
  import opened Wrappers
  import opened Records

  /** A parking location without its id (`Omit<ParkingLocation, "id">`). */
  datatype LocationFields = LocationFields(
    name: string,
    address: string,
    capacity: real,
    latitude: real,
    longitude: real)

  type ParkingLocation = Rec<LocationFields>

  /** The form fields, each of which carries its own error message. */
  datatype LocationField = Name | Address | Capacity | Latitude | Longitude

  predicate IsInteger(x: real) {
    x.Floor as real == x
  }

  /** The fields the schema rejects: it checks each field on its own. */
  function Errors(v: LocationFields): (r: set<LocationField>)
    ensures Name in r <==> |v.name| < 3
    ensures Address in r <==> |v.address| < 5
    ensures Capacity in r <==> !(IsInteger(v.capacity) && v.capacity > 0.0)
    ensures Latitude in r <==> !(-90.0 <= v.latitude <= 90.0)
    ensures Longitude in r <==> !(-180.0 <= v.longitude <= 180.0)
  {
    (if 3 <= |v.name| then {} else {Name})
    + (if 5 <= |v.address| then {} else {Address})
    + (if IsInteger(v.capacity) && 0.0 < v.capacity then {} else {Capacity})
    + (if -90.0 <= v.latitude && v.latitude <= 90.0 then {} else {Latitude})
    + (if -180.0 <= v.longitude && v.longitude <= 180.0 then {} else {Longitude})
  }

  predicate Valid(v: LocationFields) {
    Errors(v) == {}
  }

  /** The blank form: empty texts, capacity 100 and the coordinates of Bogotá. */
  function Defaults(): LocationFields {
    LocationFields("", "", 100.0, 4.6097, -74.0817)
  }

  /** The values the form opens with: the record being edited, or the blank form. */
  function InitialValues(initial: Option<ParkingLocation>): LocationFields {
    if initial.Some? then initial.value.fields else Defaults()
  }

  /**
   * Submitting the form: the schema must accept the values; when editing, the
   * record keeps the id of the record being edited and takes every other field
   * from the values; when adding, only the values are passed on.
   */
  function HandleSubmit(initial: Option<ParkingLocation>, v: LocationFields): (r: Option<Submission<LocationFields>>)
    ensures r.Some? <==> Errors(v) == {}
    ensures r.Some? && initial.Some? ==> r.value.Existing? && r.value.rec.id == initial.value.id && r.value.rec.fields == v
    ensures r.Some? && initial.None? ==> r.value == New(v)
  {
    if !Valid(v) then None
    else if initial.Some? then Some(Existing(Rec(initial.value.id, v)))
    else Some(New(v))
  }

  /** The blank form fails exactly on the name and the address: its numbers are acceptable. */
  lemma BlankFormRejected()
    ensures Errors(Defaults()) == {Name, Address}
    ensures HandleSubmit(None, Defaults()) == None
  {
  }

  /** Opening a valid record for editing and submitting it unchanged gives back that record. */
  lemma UnchangedEditRoundTrip(loc: ParkingLocation)
    requires Valid(loc.fields)
    ensures HandleSubmit(Some(loc), InitialValues(Some(loc))) == Some(Existing(loc))
  {
  }

  /** A two-character name and a latitude of 91 are each rejected, whatever the other fields hold. */
  lemma OutOfRangeRejected(v: LocationFields)
    ensures Name in Errors(v.(name := "ab"))
    ensures Latitude in Errors(v.(latitude := 91.0))
    ensures Errors(v.(name := "ab")) - {Name} == Errors(v) - {Name}
    ensures Errors(v.(latitude := 91.0)) - {Latitude} == Errors(v) - {Latitude}
  {
  }
}
