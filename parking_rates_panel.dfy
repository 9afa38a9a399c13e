/**
 * The parking-rates admin panel: an `Editor` over rate fields, started from
 * three seed rates, whose dialog runs the rate form, and the labels under which
 * the table shows vehicle types.
 */
module ParkingRatesPanel {
  import opened Wrappers
  import opened Records
  import opened RecordEditor
  import opened ParkingRateForm

  /** The seed rates the panel starts with. */
  function InitialRates(): seq<ParkingRate> {
    [ Rec(1, RateFields("Tarifa Estándar", 5000.0, 25000.0, Car)),
      Rec(2, RateFields("Tarifa Motocicleta", 3000.0, 15000.0, Motorcycle)),
      Rec(3, RateFields("Tarifa Premium", 8000.0, 40000.0, Car)) ]
  }

  /** The seed has unique positive ids 1, 2, 3 and every seed rate passes the schema. */
  lemma InitialRatesValid()
    ensures UniqueIds(InitialRates()) && PositiveIds(InitialRates())
    ensures forall i :: 0 <= i < |InitialRates()| ==> Valid(ValuesOf(InitialRates()[i].fields))
  {
  }

  /** The panel as it is first shown. */
  method NewPanel() returns (e: Editor<RateFields>)
    ensures fresh(e) && e.Valid()
    ensures e.records == InitialRates() && !e.dialogOpen && e.current == None
  {
    InitialRatesValid();
    e := new Editor(InitialRates());
  }

  /**
   * Submitting the dialog: the form's schema decides whether the submit happens
   * at all; if it does, the rate goes to the edit handler with the selected
   * rate's id when something is selected, and to the add handler otherwise.
   */
  method SubmitForm(e: Editor<RateFields>, values: RateValues) returns (accepted: bool)
    requires e.Valid() && e.dialogOpen
    modifies e
    ensures e.Valid()
    ensures accepted <==> Valid(values)
    ensures !accepted ==> e.records == old(e.records) && e.current == old(e.current) && e.dialogOpen
    ensures accepted && old(e.current).Some? ==>
              e.records == Replaced(old(e.records), Rec(old(e.current).value.id, Parsed(values)))
              && e.current == None && !e.dialogOpen
    ensures accepted && old(e.current).None? ==>
              e.records == Appended(old(e.records), Parsed(values)) && e.current == None && !e.dialogOpen
  {
    var sub := HandleSubmit(e.current, values);
    accepted := sub.Some?;
    if accepted {
      e.Submit(sub.value);
    }
  }

  /** The delete handler with the name it shows in its notification (none for an unknown id). */
  method DeleteRate(e: Editor<RateFields>, id: int) returns (notifiedName: Option<string>)
    requires e.Valid()
    modifies e
    ensures e.Valid()
    ensures e.records == Removed(old(e.records), id)
    ensures notifiedName.Some? <==> HasId(old(e.records), id)
    ensures notifiedName.Some? ==> exists i :: 0 <= i < |old(e.records)| && old(e.records)[i].id == id
                                             && old(e.records)[i].fields.name == notifiedName.value
    ensures e.dialogOpen == old(e.dialogOpen) && e.current == old(e.current)
  {
    var found := e.Delete(id);
    notifiedName := if found.Some? then Some(found.value.fields.name) else None;
  }

  /** The Spanish label shown for each vehicle type: never the raw key. */
  function VehicleTypeLabel(t: VehicleType): (r: string)
    ensures ParseVehicleType(r).None?
  {
    match t
    case Car => "Automóvil"
    case Motorcycle => "Motocicleta"
    case Bicycle => "Bicicleta"
    case Truck => "Camión"
  }

  /** Different vehicle types are shown under different labels. */
  lemma VehicleTypeLabelsDistinct(t: VehicleType, u: VehicleType)
    ensures VehicleTypeLabel(t) == VehicleTypeLabel(u) <==> t == u
  {
  }
}
