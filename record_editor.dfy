/**
 * The state of an admin panel: the list of records, whether the add/edit dialog
 * is open, and the record being edited (none means the dialog adds). Both the
 * parking-locations panel and the parking-rates panel are an `Editor` over their
 * own record fields; each handler below is one of the panel's handlers.
 */
module RecordEditor {
  import opened Wrappers
  import opened Records

  class Editor<F> {
    var records: seq<Rec<F>>
    var dialogOpen: bool
    var current: Option<Rec<F>>

    /** Ids in the list are unique and positive; every handler keeps this. */
    ghost predicate Valid()
      reads this
    {
      UniqueIds(records) && PositiveIds(records)
    }

    /** The panel starts from its seed list with the dialog closed and nothing selected. */
    constructor (seed: seq<Rec<F>>)
      requires UniqueIds(seed) && PositiveIds(seed)
      ensures Valid()
      ensures records == seed && !dialogOpen && current == None
    {
      records := seed;
      dialogOpen := false;
      current := None;
    }

    /** The add handler: append with the next id and close the dialog; the selection is untouched. */
    method Add(f: F) returns (created: Rec<F>)
      requires Valid()
      modifies this
      ensures Valid()
      ensures created.fields == f && created.id == NextId(old(records))
      ensures !HasId(old(records), created.id)
      ensures records == old(records) + [created]
      ensures !dialogOpen && current == old(current)
    {
      AppendedKeepsValid(records, f);
      records := Appended(records, f);
      created := records[|records| - 1];
      dialogOpen := false;
    }

    /** The edit handler: replace the records with the submitted id, clear the selection, close. */
    method Edit(rec: Rec<F>)
      requires Valid()
      modifies this
      ensures Valid()
      ensures records == Replaced(old(records), rec)
      ensures current == None && !dialogOpen
    {
      ReplacedKeepsValid(records, rec);
      records := Replaced(records, rec);
      current := None;
      dialogOpen := false;
    }

    /**
     * The delete handler: look the record up first (its name goes into the
     * notification), then drop every record with that id. The dialog and the
     * selection are untouched.
     */
    method Delete(id: int) returns (found: Option<Rec<F>>)
      requires Valid()
      modifies this
      ensures Valid()
      ensures found == Find(old(records), id)
      ensures records == Removed(old(records), id)
      ensures dialogOpen == old(dialogOpen) && current == old(current)
    {
      found := Find(records, id);
      RemovedKeepsValid(records, id);
      records := Removed(records, id);
    }

    /** Open the dialog to add: nothing selected. */
    method OpenAdd()
      modifies this
      ensures records == old(records)
      ensures current == None && dialogOpen
    {
      current := None;
      dialogOpen := true;
    }

    /** Open the dialog to edit `r`. */
    method OpenEdit(r: Rec<F>)
      modifies this
      ensures records == old(records)
      ensures current == Some(r) && dialogOpen
    {
      current := Some(r);
      dialogOpen := true;
    }

    /** Cancel (or dismiss) the dialog: only the open flag changes. */
    method Cancel()
      modifies this
      ensures records == old(records) && current == old(current)
      ensures !dialogOpen
    {
      dialogOpen := false;
    }

    /**
     * The dialog's submit: the form was given the selection as its initial data,
     * so it hands back a full record exactly when something is selected; the
     * submit goes to the edit handler when something is selected and to the add
     * handler otherwise.
     */
    method Submit(sub: Submission<F>)
      requires Valid() && dialogOpen
      requires sub.Existing? <==> current.Some?
      modifies this
      ensures Valid()
      ensures old(current).Some? ==>
                records == Replaced(old(records), sub.rec) && current == None
      ensures old(current).None? ==>
                records == Appended(old(records), sub.fields) && current == None
      ensures !dialogOpen
    {
      if current.Some? {
        Edit(sub.rec);
      } else {
        var _ := Add(sub.fields);
      }
    }
  }
}
