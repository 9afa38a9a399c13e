/**
 * The public locations list and map: which card is expanded, which location is
 * selected, the colour band of a location's availability, and the image shown
 * for the selection.
 */
module LocationMap {
  import opened Wrappers

  datatype MapLocation = MapLocation(id: string, name: string, availability: real, image: string)

  const DefaultImage: string :=
    "https://images.unsplash.com/photo-1486480128099-b7f7fdf8294b?w=800&auto=format&fit=crop&q=60"

  /** The four locations the component lists. */
  function Locations(): seq<MapLocation> {
    [ MapLocation("plaza", "Centro Comercial Plaza", 70.0,
        "https://images.unsplash.com/photo-1487958449943-2429e8be8625?w=800&auto=format&fit=crop&q=60"),
      MapLocation("central", "Parqueadero Central", 30.0,
        "https://images.unsplash.com/photo-1460925895917-afdab827c52f?w=800&auto=format&fit=crop&q=60"),
      MapLocation("corporate", "Edificio Corporativo", 10.0,
        "https://images.unsplash.com/photo-1483058712412-4245e9b90334?w=800&auto=format&fit=crop&q=60"),
      MapLocation("north", "Parqueadero Norte", 55.0,
        "https://images.unsplash.com/photo-1459767129954-1b1c1f9b9ace?w=800&auto=format&fit=crop&q=60") ]
  }

  /**
   * The expanded card after the expand button of `id` is pressed: the card
   * `id` is expanded afterwards exactly when it was not before, and no other
   * card is.
   */
  function Toggled(expanded: Option<string>, id: string): (r: Option<string>)
    ensures r == Some(id) <==> expanded != Some(id)
    ensures forall other :: other != id ==> r != Some(other)
  {
    if expanded == Some(id) then None else Some(id)
  }

  /** Pressing the same button twice restores the state exactly when that card or none was expanded. */
  lemma ToggleTwice(expanded: Option<string>, id: string)
    ensures Toggled(Toggled(expanded, id), id) == expanded <==> (expanded == None || expanded == Some(id))
  {
  }

  /** From the collapsed state, pressing one button twice collapses again. */
  lemma ToggleTwiceFromCollapsed(id: string)
    ensures Toggled(Toggled(None, id), id) == None
  {
  }

  /** The three availability bands a location can fall in. */
  datatype Band = Secondary | Orange | Red

  /** The band of a percentage: above 50, above 20 up to 50, and 20 or below. */
  function BandOf(percentage: real): (b: Band)
    ensures b == Secondary <==> percentage > 50.0
    ensures b == Orange <==> 20.0 < percentage <= 50.0
    ensures b == Red <==> percentage <= 20.0
  {
    if percentage > 50.0 then Secondary
    else if percentage > 20.0 then Orange
    else Red
  }

  function BarClass(b: Band): string {
    match b
    case Secondary => "bg-secondary"
    case Orange => "bg-orange-500"
    case Red => "bg-red-500"
  }

  function TextClass(b: Band): string {
    match b
    case Secondary => "text-secondary"
    case Orange => "text-orange-500"
    case Red => "text-red-500"
  }

  /** The availability bar's colour class: three bands split at 50 and 20. */
  function AvailabilityColor(percentage: real): (c: string)
    ensures c == "bg-secondary" <==> percentage > 50.0
    ensures c == "bg-orange-500" <==> 20.0 < percentage <= 50.0
    ensures c == "bg-red-500" <==> percentage <= 20.0
  {
    if percentage > 50.0 then "bg-secondary"
    else if percentage > 20.0 then "bg-orange-500"
    else "bg-red-500"
  }

  /** The percentage text's colour class, written out separately next to the bar. */
  function AvailabilityTextColor(percentage: real): (c: string)
    ensures c == "text-secondary" <==> percentage > 50.0
    ensures c == "text-orange-500" <==> 20.0 < percentage <= 50.0
    ensures c == "text-red-500" <==> percentage <= 20.0
  {
    if percentage > 50.0 then "text-secondary"
    else if percentage > 20.0 then "text-orange-500"
    else "text-red-500"
  }

  /** The bar and the text of a location are coloured by the same band, so they always agree. */
  lemma TextColorMatchesBar(percentage: real)
    ensures AvailabilityColor(percentage) == BarClass(BandOf(percentage))
    ensures AvailabilityTextColor(percentage) == TextClass(BandOf(percentage))
  {
  }

  /** `find` by id: the first location with that id, if any. */
  function FindLocation(locs: seq<MapLocation>, id: string): (r: Option<MapLocation>)
    ensures r.None? <==> forall i :: 0 <= i < |locs| ==> locs[i].id != id
    ensures r.Some? ==> exists i :: 0 <= i < |locs| && locs[i] == r.value && r.value.id == id
                                    && forall j :: 0 <= j < i ==> locs[j].id != id
  {
    if |locs| == 0 then None
    else if locs[0].id == id then Some(locs[0])
    else
      var r := FindLocation(locs[1..], id);
      assert r.Some? ==> exists i :: 0 <= i < |locs| && locs[i] == r.value && r.value.id == id
                                     && forall j :: 0 <= j < i ==> locs[j].id != id by {
        if r.Some? {
          var i :| 0 <= i < |locs| - 1 && locs[1..][i] == r.value && r.value.id == id
                   && forall j :: 0 <= j < i ==> locs[1..][j].id != id;
          assert locs[i + 1] == r.value;
        }
      }
      assert r.None? ==> forall i :: 0 <= i < |locs| ==> locs[i].id != id by {
        if r.None? {
          forall i | 0 <= i < |locs| ensures locs[i].id != id {
            if i > 0 { assert locs[i] == locs[1..][i - 1]; }
          }
        }
      }
      r
  }

  /**
   * The map image: with no selection (null, or the empty string, which is
   * falsy) the default image; otherwise the image of the first location with
   * the selected id, and none (`undefined`) when no location has it.
   */
  function SelectedImage(locs: seq<MapLocation>, selected: Option<string>): (r: Option<string>)
    ensures selected == None || selected == Some("") ==> r == Some(DefaultImage)
    ensures selected != None && selected != Some("") ==>
              (r.Some? <==> exists i :: 0 <= i < |locs| && locs[i].id == selected.value)
    ensures selected != None && selected != Some("") && r.Some? ==>
              exists i :: 0 <= i < |locs| && locs[i].id == selected.value && locs[i].image == r.value
                          && forall j :: 0 <= j < i ==> locs[j].id != selected.value
  {
    if selected.None? || selected.value == "" then Some(DefaultImage)
    else
      var found := FindLocation(locs, selected.value);
      if found.Some? then Some(found.value.image) else None
  }

  /** Selecting any listed location shows that location's own image. */
  lemma SelectingListedLocationShowsItsImage(k: nat)
    requires k < |Locations()|
    ensures SelectedImage(Locations(), Some(Locations()[k].id)) == Some(Locations()[k].image)
  {
  }

  /** The component's state: the selected location and the expanded card, each one id or none. */
  class MapView {
    var selectedLocation: Option<string>
    var expandedLocation: Option<string>

    constructor ()
      ensures selectedLocation == None && expandedLocation == None
    {
      selectedLocation := None;
      expandedLocation := None;
    }

    /** A click on a card selects its location; the expanded card is untouched. */
    method ClickCard(id: string)
      modifies this
      ensures selectedLocation == Some(id)
      ensures expandedLocation == old(expandedLocation)
    {
      selectedLocation := Some(id);
    }

    /**
     * A click on a card's expand button toggles that card; the click does not
     * reach the card, so the selection is untouched.
     */
    method ClickExpand(id: string)
      modifies this
      ensures expandedLocation == Toggled(old(expandedLocation), id)
      ensures selectedLocation == old(selectedLocation)
    {
      expandedLocation := Toggled(expandedLocation, id);
    }
  }
}
