/**
 * The parking-locations admin panel: an `Editor` over location fields, started
 * from three seed locations, whose dialog runs the location form.
 */
module ParkingLocationsPanel {
  import opened Wrappers
  import opened Records
  import opened RecordEditor
  import opened ParkingLocationForm

  /** The seed locations the panel starts with. */
  function InitialLocations(): seq<ParkingLocation> {
    [ Rec(1, LocationFields("Centro Comercial Andino", "Carrera 11 #82-71", 150.0, 4.667, -74.055)),
      Rec(2, LocationFields("Centro Internacional", "Carrera 7 #33-49", 200.0, 4.617, -74.068)),
      Rec(3, LocationFields("Parque de la 93", "Calle 93 #13-45", 120.0, 4.676, -74.046)) ]
  }

  /** The seed has unique positive ids 1, 2, 3 and every seed location passes the schema. */
  lemma InitialLocationsValid()
    ensures UniqueIds(InitialLocations()) && PositiveIds(InitialLocations())
    ensures forall i :: 0 <= i < |InitialLocations()| ==> Valid(InitialLocations()[i].fields)
  {
  }

  /** The panel as it is first shown. */
  method NewPanel() returns (e: Editor<LocationFields>)
    ensures fresh(e) && e.Valid()
    ensures e.records == InitialLocations() && !e.dialogOpen && e.current == None
  {
    InitialLocationsValid();
    e := new Editor(InitialLocations());
  }

  /**
   * Submitting the dialog: the form's schema decides whether the submit happens
   * at all; if it does, the record goes to the edit handler with the selected
   * record's id when something is selected, and to the add handler otherwise.
   */
  method SubmitForm(e: Editor<LocationFields>, values: LocationFields) returns (accepted: bool)
    requires e.Valid() && e.dialogOpen
    modifies e
    ensures e.Valid()
    ensures accepted <==> Valid(values)
    ensures !accepted ==> e.records == old(e.records) && e.current == old(e.current) && e.dialogOpen
    ensures accepted && old(e.current).Some? ==>
              e.records == Replaced(old(e.records), Rec(old(e.current).value.id, values))
              && e.current == None && !e.dialogOpen
    ensures accepted && old(e.current).None? ==>
              e.records == Appended(old(e.records), values) && e.current == None && !e.dialogOpen
  {
    var sub := HandleSubmit(e.current, values);
    accepted := sub.Some?;
    if accepted {
      e.Submit(sub.value);
    }
  }

  /** The delete handler with the name it shows in its notification (none for an unknown id). */
  method DeleteLocation(e: Editor<LocationFields>, id: int) returns (notifiedName: Option<string>)
    requires e.Valid()
    modifies e
    ensures e.Valid()
    ensures e.records == Removed(old(e.records), id)
    ensures notifiedName.Some? <==> HasId(old(e.records), id)
    ensures notifiedName.Some? ==> exists i :: 0 <= i < |old(e.records)| && old(e.records)[i].id == id
                                             && old(e.records)[i].fields.name == notifiedName.value
    ensures e.dialogOpen == old(e.dialogOpen) && e.current == old(e.current)
  {
    var found := e.Delete(id);
    notifiedName := if found.Some? then Some(found.value.fields.name) else None;
  }

  /** On the seed, deleting location 3 and adding another gives the new location id 3 again. */
  lemma SeedDeleteThenAddReusesId(f: LocationFields)
    ensures Appended(Removed(InitialLocations(), 3), f)[2] == Rec(3, f)
  {
  }

  /** Adding to an empty list gives the new record id 1. */
  lemma EmptyThenAddGetsOne(f: LocationFields)
    ensures Appended([], f) == [Rec(1, f)]
  {
  }

  /** On the seed, editing location 2 keeps three locations and changes only the second. */
  lemma SeedEditReplacesSecond(f: LocationFields)
    ensures Replaced(InitialLocations(), Rec(2, f))
            == [InitialLocations()[0], Rec(2, f), InitialLocations()[2]]
  {
  }
}
