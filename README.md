# Park Vista admin panels, forms and map — a Dafny model

This project models the logic of the Park Vista front end, a parking-management
website. It covers:

- **The two admin panels.** Parking locations and parking rates are each an
  in-memory list of records with integer ids. A panel can add a record (id =
  largest id + 1, or 1 for an empty list), edit a record (replace by id) and
  delete a record (filter by id). Each panel also has a dialog with an open
  flag and a selection. The selection decides whether a submit adds or edits.
  One generic class, `RecordEditor.Editor<F>`, models both panels. Its list
  transformations are pure functions on sequences in `Records`.
- **The form schemas.** The location, rate, payment and frequent-user forms
  are modelled as functions. Each returns the set of fields the schema
  rejects. The location and rate forms also build the record they submit.
- **The public location map.** It has at most one expanded card and at most
  one selected location. It picks a colour band for availability and looks up the image of
  the selected location.
- **The payment view.** It maps payment methods, icons and status badges to
  what the history table shows, and picks the form section shown for each
  payment method.

Modules: `Wrappers` (Option), `Records`, `RecordEditor`,
`ParkingLocationForm`, `ParkingLocationsPanel`, `ParkingRateForm`,
`ParkingRatesPanel`, `LocationMap`, `PaymentView` and `FrequentUserForm`.

Modelling choices:

- JavaScript numbers are reals, and ids are integers. Capacity's `.int()`
  check is `c.Floor as real == c`.
- String lengths are lengths of `seq<char>`.
- The types `ParkingLocation` and `ParkingRate` live in the form modules. In
  the source the panel and the form import each other. Dafny modules cannot
  import each other, so the panel modules import the forms.
- The code allocates `max + 1`, so an id comes back after the record with the
  largest id is deleted: `Records.DeleteMaxThenAddReuses` states exactly when
  the deleted id comes back, and `Records.DeleteMaxThenAddNotAbove` states that
  the new id is never above the deleted maximum.
- The map image check uses JavaScript truthiness. An empty-string selection is
  falsy, so it shows the default image, the same as no selection.

## Model

| member | source | states |
|---|---|---|
| Records.MaxId | src/components/Admin/ParkingLocationsPanel.tsx:42 | `Math.max` over the ids is one of the ids and no id exceeds it; the rates panel does the same at ParkingRatesPanel.tsx:44 |
| Records.NextId | src/components/Admin/ParkingLocationsPanel.tsx:42 | the new id exceeds every id in the list; it is 1 for an empty list and otherwise one more than an id present; the rates panel does the same at ParkingRatesPanel.tsx:44 |
| Records.Appended | src/components/Admin/ParkingLocationsPanel.tsx:40-45 | an add keeps the old records as a prefix in order, grows the list by one, and the new record has the given fields and an id no record had; the rates panel does the same at ParkingRatesPanel.tsx:41-49 |
| Records.AppendedKeepsValid | src/components/Admin/ParkingLocationsPanel.tsx:40-45 | an add keeps ids unique and positive; the rates panel does the same at ParkingRatesPanel.tsx:41-49 |
| Records.Replaced | src/components/Admin/ParkingLocationsPanel.tsx:55 | an edit keeps the length; each record with the submitted id becomes the submitted record and every other record is unchanged; the rates panel does the same at ParkingRatesPanel.tsx:57 |
| Records.ReplacedAbsent | src/components/Admin/ParkingLocationsPanel.tsx:55 | an edit with an id not in the list leaves the list unchanged; the rates panel does the same at ParkingRatesPanel.tsx:57 |
| Records.ReplacedKeepsValid | src/components/Admin/ParkingLocationsPanel.tsx:55 | an edit keeps every id at its position, so unique positive ids stay so; the rates panel does the same at ParkingRatesPanel.tsx:57 |
| Records.ReplacedExactlyOne | src/components/Admin/ParkingLocationsPanel.tsx:55 | with unique ids, an edit of a present id changes exactly one position; the rates panel does the same at ParkingRatesPanel.tsx:57 |
| Records.Removed | src/components/Admin/ParkingLocationsPanel.tsx:67 | a delete never lengthens the list; every survivor was in the list and has a different id; the rates panel does the same at ParkingRatesPanel.tsx:69 |
| Records.RemovedKeepsOthers | src/components/Admin/ParkingLocationsPanel.tsx:67 | a delete keeps every record whose id differs from the deleted one; the rates panel does the same at ParkingRatesPanel.tsx:69 |
| Records.RemovedConcat | src/components/Admin/ParkingLocationsPanel.tsx:67 | a delete distributes over concatenation, so survivors keep their order; the rates panel does the same at ParkingRatesPanel.tsx:69 |
| Records.RemovedSingleton | src/components/Admin/ParkingLocationsPanel.tsx:67 | a one-record list keeps its record exactly when its id differs; the rates panel does the same at ParkingRatesPanel.tsx:69 |
| Records.RemovedAbsent | src/components/Admin/ParkingLocationsPanel.tsx:67 | a delete of an id not in the list leaves the list unchanged; the rates panel does the same at ParkingRatesPanel.tsx:69 |
| Records.RemovedKeepsValid | src/components/Admin/ParkingLocationsPanel.tsx:67 | a delete keeps ids unique and positive; the rates panel does the same at ParkingRatesPanel.tsx:69 |
| Records.RemovedCount | src/components/Admin/ParkingLocationsPanel.tsx:67 | with unique ids, deleting a present id removes exactly one record; the rates panel does the same at ParkingRatesPanel.tsx:69 |
| Records.Find | src/components/Admin/ParkingLocationsPanel.tsx:66 | the lookup is absent exactly when no record has the id, and otherwise is the first record with it; the rates panel does the same at ParkingRatesPanel.tsx:68 |
| Records.DeleteMaxThenAddNotAbove | src/components/Admin/ParkingLocationsPanel.tsx:39-67 | after deleting the largest id m, the next add gets an id no larger than m; the rates panel does the same at ParkingRatesPanel.tsx:41-76 |
| Records.DeleteMaxThenAddReuses | src/components/Admin/ParkingLocationsPanel.tsx:39-67 | after deleting the largest id m, the next add gets id m exactly when m is 1 or m - 1 is still present; the rates panel does the same at ParkingRatesPanel.tsx:41-76 |
| RecordEditor.Editor.constructor | src/components/Admin/ParkingLocationsPanel.tsx:34-36 | the panel starts from its seed with the dialog closed and no selection; the rates panel does the same at ParkingRatesPanel.tsx:36-38 |
| RecordEditor.Editor.Add | src/components/Admin/ParkingLocationsPanel.tsx:39-52 | append a record with the next, fresh id; close the dialog; the selection is unchanged; ids stay unique and positive; the rates panel does the same at ParkingRatesPanel.tsx:41-54 |
| RecordEditor.Editor.Edit | src/components/Admin/ParkingLocationsPanel.tsx:54-63 | replace by id, clear the selection, close the dialog; the rates panel does the same at ParkingRatesPanel.tsx:56-65 |
| RecordEditor.Editor.Delete | src/components/Admin/ParkingLocationsPanel.tsx:65-74 | look up the record before removing it, then filter its id out; the dialog and the selection are unchanged; the rates panel does the same at ParkingRatesPanel.tsx:67-76 |
| RecordEditor.Editor.OpenEdit | src/components/Admin/ParkingLocationsPanel.tsx:76-79 | select the record and open the dialog; the list is unchanged; the rates panel does the same at ParkingRatesPanel.tsx:78-81 |
| RecordEditor.Editor.OpenAdd | src/components/Admin/ParkingLocationsPanel.tsx:81-84 | clear the selection and open the dialog; the list is unchanged; the rates panel does the same at ParkingRatesPanel.tsx:83-86 |
| RecordEditor.Editor.Cancel | src/components/Admin/ParkingLocationsPanel.tsx:109 | only the open flag changes, to closed |
| RecordEditor.Editor.Submit | src/components/Admin/ParkingLocationsPanel.tsx:106-110 | the submit edits exactly when a record is selected and adds otherwise; either way the dialog closes |
| ParkingLocationForm.Errors | src/components/Admin/ParkingLocationForm.tsx:17-23 | name needs 3 characters and address 5; capacity must be a positive integer; latitude must be in [-90, 90] and longitude in [-180, 180], both inclusive; each field is judged alone |
| ParkingLocationForm.Defaults | src/components/Admin/ParkingLocationForm.tsx:36-42 | no contract of its own: the blank form; `ParkingLocationForm.BlankFormRejected` states what the schema makes of it |
| ParkingLocationForm.InitialValues | src/components/Admin/ParkingLocationForm.tsx:36 | no contract of its own: the edited record, or the blank form; `ParkingLocationForm.UnchangedEditRoundTrip` states that an unchanged edit gives the record back |
| ParkingLocationForm.HandleSubmit | src/components/Admin/ParkingLocationForm.tsx:45-60 | a submit happens exactly when the schema accepts; an edit carries the edited record's id with every other field from the values; an add carries only the values |
| ParkingLocationForm.BlankFormRejected | src/components/Admin/ParkingLocationForm.tsx:36-42 | the blank form fails exactly on name and address; capacity 100 and the Bogotá coordinates pass |
| ParkingLocationForm.UnchangedEditRoundTrip | src/components/Admin/ParkingLocationForm.tsx:36-55 | a valid record opened for editing and submitted unchanged comes back as the same record |
| ParkingLocationForm.OutOfRangeRejected | src/components/Admin/ParkingLocationForm.tsx:18-22 | a 2-character name and a latitude of 91 are rejected, and each changes only its own field's verdict |
| ParkingLocationsPanel.InitialLocations | src/components/Admin/ParkingLocationsPanel.tsx:18-22 | no contract of its own: the three seed locations; `ParkingLocationsPanel.InitialLocationsValid` states that they have unique positive ids and pass the schema |
| ParkingLocationsPanel.InitialLocationsValid | src/components/Admin/ParkingLocationsPanel.tsx:18-22 | the seed ids are unique and positive, and every seed location passes the schema |
| ParkingLocationsPanel.NewPanel | src/components/Admin/ParkingLocationsPanel.tsx:34-36 | a new panel holds the seed, with the dialog closed and no selection |
| ParkingLocationsPanel.SubmitForm | src/components/Admin/ParkingLocationsPanel.tsx:106-110 | a rejected form changes nothing; an accepted one edits with the selected id when something is selected and adds otherwise |
| ParkingLocationsPanel.DeleteLocation | src/components/Admin/ParkingLocationsPanel.tsx:65-74 | the notification names the record found before the filter, and no name is given when the id is unknown |
| ParkingLocationsPanel.SeedDeleteThenAddReusesId | src/components/Admin/ParkingLocationsPanel.tsx:39-67 | on the seed, deleting 3 and then adding gives id 3 again |
| ParkingLocationsPanel.EmptyThenAddGetsOne | src/components/Admin/ParkingLocationsPanel.tsx:42 | adding to an empty list gives id 1 |
| ParkingLocationsPanel.SeedEditReplacesSecond | src/components/Admin/ParkingLocationsPanel.tsx:55 | on the seed, editing id 2 keeps three locations and changes only the second |
| ParkingRateForm.ParseVehicleType | src/components/Admin/ParkingRateForm.tsx:28 | the enum accepts exactly the keys of the four vehicle types |
| ParkingRateForm.ParseKeyRoundTrip | src/components/Admin/ParkingRateForm.tsx:28 | parsing a vehicle type's key gives that type back |
| ParkingRateForm.Errors | src/components/Admin/ParkingRateForm.tsx:24-29 | name needs 3 characters; the hourly and daily rates must each be positive, checked separately; the vehicle type must be car, motorcycle, bicycle or truck |
| ParkingRateForm.Parsed | src/components/Admin/ParkingRateForm.tsx:50-58 | the schema output of valid values shows in the form as exactly those values |
| ParkingRateForm.ValuesOf | src/components/Admin/ParkingRateForm.tsx:42 | a stored rate shows in the form with its name and rates and with a vehicle-type key that parses back to its vehicle type |
| ParkingRateForm.ValuesParsedRoundTrip | src/components/Admin/ParkingRateForm.tsx:42-58 | a valid rate shown in the form and parsed again is the same rate |
| ParkingRateForm.Defaults | src/components/Admin/ParkingRateForm.tsx:42-47 | no contract of its own: the blank form; `ParkingRateForm.BlankFormRejected` states what the schema makes of it |
| ParkingRateForm.InitialValues | src/components/Admin/ParkingRateForm.tsx:42 | no contract of its own: the edited rate, or the blank form; `ParkingRateForm.UnchangedEditRoundTrip` states that an unchanged edit gives the rate back |
| ParkingRateForm.HandleSubmit | src/components/Admin/ParkingRateForm.tsx:50-62 | a submit happens exactly when the schema accepts; an edit keeps the edited rate's id with every other field from the values; an add has no id |
| ParkingRateForm.BlankFormRejected | src/components/Admin/ParkingRateForm.tsx:42-47 | the blank form fails on the name alone; 5000, 25000 and car pass |
| ParkingRateForm.UnchangedEditRoundTrip | src/components/Admin/ParkingRateForm.tsx:42-58 | a valid rate opened for editing and submitted unchanged comes back as the same rate |
| ParkingRatesPanel.InitialRates | src/components/Admin/ParkingRatesPanel.tsx:21-25 | no contract of its own: the three seed rates; `ParkingRatesPanel.InitialRatesValid` states that they have unique positive ids and pass the schema |
| ParkingRatesPanel.InitialRatesValid | src/components/Admin/ParkingRatesPanel.tsx:21-25 | the seed ids are unique and positive, and every seed rate passes the schema |
| ParkingRatesPanel.NewPanel | src/components/Admin/ParkingRatesPanel.tsx:36-38 | a new panel holds the seed, with the dialog closed and no selection |
| ParkingRatesPanel.SubmitForm | src/components/Admin/ParkingRatesPanel.tsx:127-131 | a rejected form changes nothing; an accepted one edits with the selected id when something is selected and adds otherwise |
| ParkingRatesPanel.DeleteRate | src/components/Admin/ParkingRatesPanel.tsx:67-76 | the notification names the rate found before the filter, and no name is given when the id is unknown |
| ParkingRatesPanel.VehicleTypeLabel | src/components/Admin/ParkingRatesPanel.tsx:97-105 | the label is never a vehicle-type key; `ParkingRatesPanel.VehicleTypeLabelsDistinct` states that the four labels differ |
| ParkingRatesPanel.VehicleTypeLabelsDistinct | src/components/Admin/ParkingRatesPanel.tsx:97-105 | the label lookup covers all four vehicle types and gives four different labels |
| LocationMap.Locations | src/components/LocationMap.tsx:20-61 | no contract of its own: the four listed locations; `LocationMap.SelectingListedLocationShowsItsImage` states that each shows its own image |
| LocationMap.Toggled | src/components/LocationMap.tsx:63-65 | after a toggle of id, that card is expanded exactly when it was not before, and no other card is expanded |
| LocationMap.ToggleTwice | src/components/LocationMap.tsx:63-65 | toggling the same id twice restores the state exactly when that card or no card was expanded |
| LocationMap.ToggleTwiceFromCollapsed | src/components/LocationMap.tsx:63-65 | from the collapsed state, toggling one id twice collapses again |
| LocationMap.BandOf | src/components/LocationMap.tsx:67-71 | the three availability bands: above 50, above 20 up to 50, and 20 or below |
| LocationMap.AvailabilityColor | src/components/LocationMap.tsx:67-71 | secondary above 50, orange above 20 up to 50, red at 20 or below |
| LocationMap.AvailabilityTextColor | src/components/LocationMap.tsx:127-129 | the text colour is secondary above 50, orange above 20 up to 50, red at 20 or below |
| LocationMap.TextColorMatchesBar | src/components/LocationMap.tsx:127-129 | the bar colour and the text colour both follow the same band of the percentage, so they always agree |
| LocationMap.FindLocation | src/components/LocationMap.tsx:183 | the lookup is absent exactly when no location has the id, and otherwise is the first location with it |
| LocationMap.SelectedImage | src/components/LocationMap.tsx:181-184 | with no selection the default image; otherwise the first matching location's image, or none when no location matches |
| LocationMap.SelectingListedLocationShowsItsImage | src/components/LocationMap.tsx:181-184 | selecting any of the four listed locations shows that location's own image |
| LocationMap.MapView.constructor | src/components/LocationMap.tsx:17-18 | nothing is selected and nothing is expanded at first |
| LocationMap.MapView.ClickCard | src/components/LocationMap.tsx:94 | a card click selects the location and leaves the expanded card unchanged |
| LocationMap.MapView.ClickExpand | src/components/LocationMap.tsx:101-104 | the expand button toggles the card and, because it stops propagation, leaves the selection unchanged |
| PaymentView.Errors | src/components/Payments/PaymentView.tsx:22-30 | the plate must have 5 to 7 characters, the amount must be positive, and the method must be one of the four |
| PaymentView.Defaults | src/components/Payments/PaymentView.tsx:88-92 | no contract of its own: the untouched form; `PaymentView.DefaultsRejected` states what the schema makes of it |
| PaymentView.DefaultsRejected | src/components/Payments/PaymentView.tsx:86-93 | the untouched form fails on its plate and on its amount of 0 |
| PaymentView.CardFieldsOptional | src/components/Payments/PaymentView.tsx:26-29 | the card fields never affect validity, whatever the method |
| PaymentView.DetailSections | src/components/Payments/PaymentView.tsx:288-352 | card details for credit or debit, the cash note for cash, the app note for app |
| PaymentView.DetailSectionsExclusive | src/components/Payments/PaymentView.tsx:288-352 | at most one section is shown, and exactly one for each accepted method |
| PaymentView.PaymentMethodLabel | src/components/Payments/PaymentView.tsx:120-133 | an unknown method is shown unchanged |
| PaymentView.PaymentMethodLabelsDistinct | src/components/Payments/PaymentView.tsx:120-133 | the four methods get four different fixed labels, none of them a method key |
| PaymentView.PaymentMethodIcon | src/components/Payments/PaymentView.tsx:106-118 | the wallet icon exactly for cash, the receipt icon exactly for app |
| PaymentView.CardIconFallback | src/components/Payments/PaymentView.tsx:106-118 | credit, debit and every unknown method get the card icon |
| PaymentView.StatusBadge | src/components/Payments/PaymentView.tsx:135-146 | completed, pending and failed get fixed coloured badges; any other status is shown unchanged in grey |
| FrequentUserForm.Errors | src/components/FrequentUser/FrequentUserForm.tsx:29-44 | the per-field rules: length minimums, the two enums, the 5-to-7 plate, the e-mail check, and terms that must be true |
| FrequentUserForm.Defaults | src/components/FrequentUser/FrequentUserForm.tsx:51-64 | no contract of its own: the blank form; `FrequentUserForm.BlankFormRejected` states what the schema makes of it |
| FrequentUserForm.BlankFormRejected | src/components/FrequentUser/FrequentUserForm.tsx:49-65 | the blank form fails on every length-checked field and on the terms; its enum choices pass |
| FrequentUserForm.TermsRequired | src/components/FrequentUser/FrequentUserForm.tsx:41-43 | no form without the terms accepted is valid |
| FrequentUserForm.PreferredLocationFree | src/components/FrequentUser/FrequentUserForm.tsx:40 | the preferred location never affects validity |
| FrequentUserForm.SamePlateRuleAsPayment | src/components/FrequentUser/FrequentUserForm.tsx:36 | the plate rule is the payment form's rule |

## Left out

- Rendering, CSS classes, dialogs, tabs and tables are left out. The model keeps only the state they read.
- Toast notifications are left out. Only the name in the delete notification is modelled, as the output of `DeleteLocation` and `DeleteRate`.
- `formatCurrency` (`Intl.NumberFormat`) and the date formatting are left out. They are calls into locale libraries.
- The e-mail format check of the validation library is not modelled. It is a parameter, `isEmail`.
- The string-to-number coercion of the validation library is left out. Numbers arrive already coerced, so inputs that coerce to NaN are not modelled.
- Floating-point rounding of coordinates, rates and amounts is left out. These values are reals.
- String lengths count characters of `seq<char>`. The model does not count UTF-16 code units as JavaScript does.
- The form library's `reset`, its `console.log`, and the moment at which it computes default values are left out.
- The payment view's `paymentTab` and `date` state are left out. They are UI-only.
- The reports dashboard, the navigation bar, the hero, features and login sections, and the page components are not part of this model. They are static markup and sample data.
- RecordEditor.Editor.Submit: it requires that the submission is a full record exactly when a record is selected. The source guarantees this by giving the form the selection as its initial data. A mismatched submission, such as an edit without an id, is not modelled.
