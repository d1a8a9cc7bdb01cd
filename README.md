# Oilwell-app / WellBuddy in Dafny

A model of the state logic of the Oilwell-app repository, a React app for
recording service and maintenance work on oil wells. The repository holds
three versions of the app, and the model covers each of them:

- **The browser-only app** (`wellbuddy-app/src/App.jsx`) is module `LocalApp`.
  The root component keeps every well and every record in two lists. The
  home page appends wells through a small form. A well's page lists the
  records whose `wellId` names the well, split into service and maintenance
  records. It edits wells and records one property at a time and appends
  records under the id max+1.
- **The signed-in app** (`wellbuddy-app/src/WellBuddyApp.jsx`,
  `wellbuddy-app/src/components/WellDetail.jsx`) is modules `Dashboard` and
  `WellDetail`. They sit over `Firestore`, an abstract document store. The
  dashboard lists the wells the signed-in user owns and creates wells stamped
  with their owner. A well's page lets only the well's owner edit the well,
  edit records and add records. A new record goes first in the page's list.
- **The click-to-edit field** (`wellbuddy-app/src/components/InlineEdit.jsx`)
  is module `InlineEdit`. It is a pure step function over events, the runs of
  that function, and a class whose handlers are proved to follow it.
- **The original single-file app** (`src/App.js`) is module `LegacyApp`. It
  has two wells, each with a list of text records, and appends a record to
  one well when the trimmed text is not empty.

`Collections` holds what every module shares: optional properties, the
spread of one property, and the three array operations the components use
(`filter`, `find`, and `map` with a conditional replacement). `HashRoute`
holds the deep-link scheme the QR codes use: `{origin}/#/well/{id}`, read
back by the hash router's `/well/:id` route.

Each React component that keeps state is a class. Its `useState` hooks are
fields, and each handler is a method that states its whole new state through
the pure functions, which carry the lemmas. A store write in an async handler
is a call on the `Firestore.Store` object. A fresh id (`addDoc`,
`crypto.randomUUID()`) or a clock reading (`Date.now()`, `new Date()`) is a
parameter.

The JavaScript property `type` of a record is called `kind` here.

## Model

| member | source | states |
|---|---|---|
| Collections.Overlay | wellbuddy-app/src/App.jsx:355 | a property present in the update replaces the current one; an absent one leaves it |
| Collections.Filter | wellbuddy-app/src/App.jsx:203 | `filter` keeps exactly the elements satisfying the callback, and never more elements than the input has |
| Collections.FilterConcat | wellbuddy-app/src/App.jsx:203 | filtering distributes over concatenation, so `filter` keeps the original order |
| Collections.FilterComposes | wellbuddy-app/src/App.jsx:255 | filtering the filtered list is one filter by the conjunction |
| Collections.FilterPartition | wellbuddy-app/src/components/WellDetail.jsx:86-87 | two filters by exclusive conditions split the list: their multisets add up to the list's, and so do their lengths |
| Collections.FirstIndex | wellbuddy-app/src/App.jsx:202 | the index of the first matching element, or -1 when none matches |
| Collections.Find | wellbuddy-app/src/App.jsx:202 | `find` returns the first matching element of the list, and returns nothing exactly when no element matches |
| Collections.UpdateWhere | wellbuddy-app/src/App.jsx:354-355 | the conditional `map` keeps length and positions, changes each matching element and keeps each other one |
| Collections.FindAfterUpdate | wellbuddy-app/src/App.jsx:354-355 | after the update a lookup finds the changed version of what it found before, when the change keeps the element matching |
| Collections.FirstIndexAfterUpdate | wellbuddy-app/src/App.jsx:354-355 | such an update leaves the index of the first match where it was |
| HashRoute.WellLink | wellbuddy-app/src/App.jsx:15-23 | the link is the origin, then `/#/well/`, then the id |
| HashRoute.Fragment | wellbuddy-app/src/App.jsx:362 | the hash router reads the part after the first '#'; there is none exactly when the URL has no '#' |
| HashRoute.WellParam | wellbuddy-app/src/App.jsx:365-366 | for the links the app builds, the route `/well/:id` matches `/well/` followed by one non-empty path segment, which becomes `id` |
| HashRoute.FragmentAfterFirstHash | wellbuddy-app/src/App.jsx:362 | in a URL whose first '#' follows an origin without one, the fragment is everything after that '#' |
| HashRoute.WellLinkFragment | wellbuddy-app/src/App.jsx:15-23 | the fragment of a well link is `/well/{id}`, whatever the origin |
| HashRoute.RouteRoundTrip | wellbuddy-app/src/App.jsx:365-366 | the router recovers from a well link the same id the link was built from |
| LocalApp.PatchWell | wellbuddy-app/src/App.jsx:355 | the spread keeps the id, and an empty update changes nothing |
| LocalApp.PatchRecord | wellbuddy-app/src/App.jsx:359 | the spread keeps id, `wellId` and `type`, and an empty update changes nothing |
| LocalApp.UpdateWells | wellbuddy-app/src/App.jsx:354-355 | `updateWell` keeps length, order and ids; it patches each well with the id and keeps each other well |
| LocalApp.UpdateRecords | wellbuddy-app/src/App.jsx:358-359 | `updateRecord` keeps length, order, ids, `wellId`s and types; it patches each record with the id and keeps each other record |
| LocalApp.FindWell | wellbuddy-app/src/App.jsx:202 | the well page's well is the first listed well with the route's id, and is missing only when no listed well has it |
| LocalApp.UpdateThenFindWell | wellbuddy-app/src/App.jsx:354-355 | after `updateWell` the page shows the old well with the update's properties overwritten |
| LocalApp.RelatedRecords | wellbuddy-app/src/App.jsx:203 | `relatedRecords` holds exactly the records whose `wellId` is the page's well |
| LocalApp.KindRecords | wellbuddy-app/src/App.jsx:255-270 | a type list holds exactly the records of that type |
| LocalApp.KindListIsSubList | wellbuddy-app/src/App.jsx:203 | the service (or maintenance) list is the order-preserving sub-list of all records with that well and type |
| LocalApp.KindListsPartition | wellbuddy-app/src/App.jsx:255-270 | the service and maintenance lists are disjoint, and they split the well's records when every record has one of the two types |
| LocalApp.MaxId | wellbuddy-app/src/App.jsx:222 | `Math.max` over the ids, a missing id counted as 0, is at least every id and is one of them |
| LocalApp.NextRecordId | wellbuddy-app/src/App.jsx:222 | the new id is 1 for an empty list, otherwise one more than an existing id, and in both cases greater than every id |
| LocalApp.NewRecord | wellbuddy-app/src/App.jsx:223 | the new record carries the form's fields and an id no existing record has |
| LocalApp.SeedIsConsistent | wellbuddy-app/src/App.jsx:324-340 | the first-run state is two wells with ids 1 and 2 and two records, and it satisfies the table invariant |
| LocalApp.AddWellKeepsConsistent | wellbuddy-app/src/App.jsx:353 | appending a well keeps the table invariant |
| LocalApp.UpdatesKeepConsistent | wellbuddy-app/src/App.jsx:354-359 | patching wells or records keeps the table invariant |
| LocalApp.AppendRecordKeepsConsistent | wellbuddy-app/src/App.jsx:357 | appending a record with a fresh id for a listed well keeps the table invariant |
| LocalApp.SafeQrValue | wellbuddy-app/src/App.jsx:15-23 | in both modes the link's fragment is `/well/{id}` and the link ends with the id |
| LocalApp.LocalStore.Seeded | wellbuddy-app/src/App.jsx:324-340 | with nothing saved the app starts from the seed, which satisfies the invariant |
| LocalApp.LocalStore.AddWell | wellbuddy-app/src/App.jsx:353 | `addWell` appends the well, leaves the records alone and keeps the invariant |
| LocalApp.LocalStore.UpdateWell | wellbuddy-app/src/App.jsx:354-355 | `updateWell` replaces the wells by their merge by id and keeps the invariant |
| LocalApp.LocalStore.AddRecord | wellbuddy-app/src/App.jsx:357 | `addRecord` appends the record, and keeps the invariant for a fresh id of a listed well |
| LocalApp.LocalStore.UpdateRecord | wellbuddy-app/src/App.jsx:358-359 | `updateRecord` replaces the records by their merge by id and keeps the invariant |
| LocalApp.HomeForm.constructor | wellbuddy-app/src/App.jsx:112-113 | the form starts closed with a blank well under a timestamp id |
| LocalApp.HomeForm.Open | wellbuddy-app/src/App.jsx:131 | the button opens the form and keeps the typed fields |
| LocalApp.HomeForm.Cancel | wellbuddy-app/src/App.jsx:161 | Cancel closes the form and keeps the typed fields |
| LocalApp.HomeForm.Fill | wellbuddy-app/src/App.jsx:142-150 | typing sets name and location and nothing else |
| LocalApp.HomeForm.HandleAddWell | wellbuddy-app/src/App.jsx:115-120 | with an empty name or location nothing changes; otherwise the drafted well is appended, the draft is reset under a new timestamp, and the form closes |
| LocalApp.RecordForm.constructor | wellbuddy-app/src/App.jsx:205-209 | the form starts closed, with type `service` and empty fields |
| LocalApp.RecordForm.Open | wellbuddy-app/src/App.jsx:282 | the button opens the form and keeps the typed fields |
| LocalApp.RecordForm.Cancel | wellbuddy-app/src/App.jsx:299 | Cancel closes the form and keeps the typed fields |
| LocalApp.RecordForm.Fill | wellbuddy-app/src/App.jsx:290-296 | the select and inputs set type, date, operator and notes |
| LocalApp.RecordForm.HandleAdd | wellbuddy-app/src/App.jsx:220-228 | with an empty date or operator nothing changes; otherwise the record under the next id is appended, date, operator and notes are cleared (the type is kept), the form closes, and the invariant is kept |
| Firestore.PatchWell | wellbuddy-app/src/components/WellDetail.jsx:66 | the merge keeps id and owner, and an empty update changes nothing |
| Firestore.PatchEntry | wellbuddy-app/src/components/WellDetail.jsx:82 | the store's merge keeps the type, and an empty update changes nothing |
| Firestore.PatchRecord | wellbuddy-app/src/components/WellDetail.jsx:83 | the page's merge keeps the id and agrees with the merge the store performs on the document |
| Firestore.Store.constructor | wellbuddy-app/src/WellBuddyApp.jsx:30-32 | the store holds the given documents |
| Firestore.Store.CreateWell | wellbuddy-app/src/WellBuddyApp.jsx:52 | `setDoc` at a fresh id appends the document |
| Firestore.Store.UpdateWell | wellbuddy-app/src/components/WellDetail.jsx:65 | `updateDoc` succeeds exactly when the document exists, and merges the update into it by id |
| Firestore.Store.AddRecord | wellbuddy-app/src/components/WellDetail.jsx:72 | `addDoc` files the record under a fresh id in the well's collection |
| Firestore.Store.UpdateRecord | wellbuddy-app/src/components/WellDetail.jsx:82 | `updateDoc` succeeds exactly when the record exists, merges into it, and otherwise changes nothing |
| Dashboard.MakeWell | wellbuddy-app/src/WellBuddyApp.jsx:41-51 | the new well has the fresh id, the user as owner, the given name and location, and each equipment property as given or `""` |
| Dashboard.OwnedWells | wellbuddy-app/src/WellBuddyApp.jsx:23-36 | signed out the list is empty; signed in it holds exactly the stored wells the user owns |
| Dashboard.CreatedWellListedForOwnerOnly | wellbuddy-app/src/WellBuddyApp.jsx:41-53 | a created well is listed last for its owner and for nobody else, whose list does not change |
| Dashboard.CreatedWellAnywhere | wellbuddy-app/src/WellBuddyApp.jsx:30-32 | wherever the store files a created well, the owner's query returns the old owned wells and the new one, and other users' queries are unchanged |
| Dashboard.Dashboard.constructor | wellbuddy-app/src/WellBuddyApp.jsx:19-20 | the dashboard starts empty and not loaded |
| Dashboard.Dashboard.Load | wellbuddy-app/src/WellBuddyApp.jsx:24-34 | `load` sets the list to the user's wells (none when signed out) and marks it loaded |
| Dashboard.Dashboard.SessionChanged | wellbuddy-app/src/WellBuddyApp.jsx:23-36 | a session change reloads, so the list matches the store for the new user |
| Dashboard.Dashboard.AddWell | wellbuddy-app/src/WellBuddyApp.jsx:38-54 | signed out nothing happens; signed in the well is appended to the store and to the list, which keeps holding exactly the user's stored wells, in any order |
| Dashboard.Dashboard.HandleAddWell | wellbuddy-app/src/components/Home.jsx:20-25 | with an empty name or location nothing is written; signed out nothing changes; `loaded` is kept; otherwise the well is appended both to the store and to the dashboard's list |
| WellDetail.CanEdit | wellbuddy-app/src/components/WellDetail.jsx:62 | editing is allowed exactly when a user is signed in and owns the well |
| WellDetail.OnlyTheOwnerEdits | wellbuddy-app/src/components/WellDetail.jsx:62 | no other user may edit the owner's well, and neither may a signed-out visitor |
| WellDetail.ServiceRecords | wellbuddy-app/src/components/WellDetail.jsx:86 | the service list holds exactly the records of type `service` |
| WellDetail.MaintenanceRecords | wellbuddy-app/src/components/WellDetail.jsx:87 | the maintenance list holds exactly the records of type `maintenance` |
| WellDetail.KindListsPartition | wellbuddy-app/src/components/WellDetail.jsx:86-87 | both lists keep the page's order, share no record, and split the records when each has one of the two types |
| WellDetail.UpdateRecords | wellbuddy-app/src/components/WellDetail.jsx:83 | the page's merge keeps length and order, patches each record with the id and keeps each other record |
| WellDetail.IdsOfDistinct | wellbuddy-app/src/components/WellDetail.jsx:46-48 | with no id shown twice, the shown ids are as many as the shown records, and are exactly their ids |
| WellDetail.MirrorsCoversStored | wellbuddy-app/src/components/WellDetail.jsx:46-48 | a page that shows only stored records, each once and as many as are stored, shows every stored record: its ids are exactly the stored ids |
| WellDetail.UpdateKeepsDistinct | wellbuddy-app/src/components/WellDetail.jsx:83 | the page's merge shows no id twice when the page did not before |
| WellDetail.PrependKeepsMirror | wellbuddy-app/src/components/WellDetail.jsx:72-73 | putting the stored record first keeps the page showing exactly the stored records, each once |
| WellDetail.UpdateKeepsMirror | wellbuddy-app/src/components/WellDetail.jsx:82-83 | merging the same update on the page and in the store keeps the page showing exactly the stored records, each once |
| WellDetail.UpdateKeepsIds | wellbuddy-app/src/components/WellDetail.jsx:83 | the page's merge never changes a record's id |
| WellDetail.UpdateKeepsAgreement | wellbuddy-app/src/components/WellDetail.jsx:82-83 | after the same merge on both sides, each shown record is still the stored document with its id |
| WellDetail.SafeQrValue | wellbuddy-app/src/components/WellDetail.jsx:21-27 | the link ends with the id; its fragment is `/well/{id}` in production, and also in development when the origin holds no '#'; in development it starts with the page's origin |
| WellDetail.DetailView.constructor | wellbuddy-app/src/components/WellDetail.jsx:30-38 | the page starts with no well, no records and a closed form with type `service` |
| WellDetail.DetailView.Load | wellbuddy-app/src/components/WellDetail.jsx:40-51 | `load` sets the well when its document exists and the records to the query's result, which holds every stored record of the well once; the page then shows exactly the stored records |
| WellDetail.DetailView.SessionChanged | wellbuddy-app/src/components/WellDetail.jsx:31 | only the user changes |
| WellDetail.DetailView.UpdateWell | wellbuddy-app/src/components/WellDetail.jsx:64-67 | only the owner can call it; the store's well and the shown well both become the old well with the update's properties overwritten |
| WellDetail.DetailView.OpenForm | wellbuddy-app/src/components/WellDetail.jsx:133-140 | only the owner sees the button, which opens the form |
| WellDetail.DetailView.CancelForm | wellbuddy-app/src/components/WellDetail.jsx:179-184 | Cancel closes the form and keeps the typed fields |
| WellDetail.DetailView.Fill | wellbuddy-app/src/components/WellDetail.jsx:142-171 | the form, shown only to the owner, sets type, date, operator and notes |
| WellDetail.DetailView.AddRecord | wellbuddy-app/src/components/WellDetail.jsx:69-79 | with an empty date or operator nothing is written and nothing changes; otherwise the record is stored under the fresh id, put first on the page before the old records, and the form is reset to type `service` with empty fields and closed |
| WellDetail.DetailView.UpdateRecord | wellbuddy-app/src/components/WellDetail.jsx:81-84 | the store's record and every shown record with the id get the update; a missing record changes nothing; the page keeps showing exactly the stored records |
| InlineEdit.Reset | wellbuddy-app/src/components/InlineEdit.jsx:5 | the draft a value gives is the value, or `""` when it is absent |
| InlineEdit.Initial | wellbuddy-app/src/components/InlineEdit.jsx:4-5 | the field mounts not editing, with the value's draft |
| InlineEdit.Shown | wellbuddy-app/src/components/InlineEdit.jsx:11 | an absent or empty value is shown as "—", and any other value as itself |
| InlineEdit.Render | wellbuddy-app/src/components/InlineEdit.jsx:7-72 | the input appears only when the user may edit and is editing; otherwise the value is shown, without the pencil exactly when the user may not edit |
| InlineEdit.Step | wellbuddy-app/src/components/InlineEdit.jsx:16-69 | from any state: the pencil opens the editor on the current draft; typing replaces the draft; Save or Enter hands over the draft and closes the editor once the save is accepted, leaving it open on a rejected save; Cancel or Escape restores `value ?? ""` and closes without saving; a read-only field ignores every event; nothing else saves, opens the editor or changes the draft |
| InlineEdit.Run | wellbuddy-app/src/components/InlineEdit.jsx:7-14 | over any events a read-only field never changes and never saves, and no run saves more often than it has events |
| InlineEdit.KeysActAsButtons | wellbuddy-app/src/components/InlineEdit.jsx:30-36 | Enter acts as Save and Escape acts as Cancel |
| InlineEdit.SavedTextsWereTyped | wellbuddy-app/src/components/InlineEdit.jsx:16-19 | every saved text, and the final draft, is the starting draft, the value's reset draft, or a text the user typed |
| InlineEdit.EditTypeSave | wellbuddy-app/src/components/InlineEdit.jsx:16-43 | pencil, typing and an accepted Save (or Enter) hand over exactly the typed text and close the editor |
| InlineEdit.EditTypeCancel | wellbuddy-app/src/components/InlineEdit.jsx:30-52 | pencil, typing and Cancel (or Escape) save nothing and return to the mount state |
| InlineEdit.InlineEditor.constructor | wellbuddy-app/src/components/InlineEdit.jsx:3-5 | the mounted field has the mount state |
| InlineEdit.InlineEditor.Handle | wellbuddy-app/src/components/InlineEdit.jsx:16-69 | each handler makes exactly the state change and the save that `Step` gives |
| InlineEdit.InlineEditor.Rerender | wellbuddy-app/src/components/InlineEdit.jsx:3-5 | new props keep the state: the draft is not refreshed from a changed value |
| LegacyApp.TrimStart | src/App.js:15 | drops exactly the leading white space: what it drops is white space, and what it keeps is a suffix that starts with something else |
| LegacyApp.TrimEnd | src/App.js:15 | drops exactly the trailing white space in the same way |
| LegacyApp.TrimStartBlank | src/App.js:15 | nothing is left from the front exactly when the text is all white space |
| LegacyApp.TrimEndBlank | src/App.js:15 | nothing is left from the back exactly when the text is all white space |
| LegacyApp.TrimEmptyIffBlank | src/App.js:15 | `trim()` gives the empty text exactly when the text is all white space |
| LegacyApp.InitialWellsAreEmpty | src/App.js:6-9 | the initial state is two wells with the distinct ids 1 and 2 and no records |
| LegacyApp.AppendEntry | src/App.js:16-24 | the list keeps its length and order; each well with the id gets the record after its records, which keep their order; every other well is unchanged |
| LegacyApp.AppendEntryCount | src/App.js:16-24 | each well with the id gains exactly one record, and no other well gains any |
| LegacyApp.AppendEntryAddsOne | src/App.js:16-24 | with distinct ids, adding to a listed well adds one record in all, an unknown id adds none, and the ids stay distinct |
| LegacyApp.DistinctCount | src/App.js:18 | with distinct ids at most one well matches the id |
| LegacyApp.OilWellApp.constructor | src/App.js:6-11 | the app starts with the two wells, no open panel and an empty input |
| LegacyApp.OilWellApp.ViewRecords | src/App.js:51 | "View Records" opens the panel on that well object and changes nothing else |
| LegacyApp.OilWellApp.Close | src/App.js:100 | Close closes the panel and changes nothing else |
| LegacyApp.OilWellApp.Type | src/App.js:86 | typing sets the input and nothing else |
| LegacyApp.OilWellApp.AddRecord | src/App.js:14-27 | a blank text changes nothing; otherwise the untrimmed text is appended to that well and the input is cleared; the open panel's well is never touched |
| LegacyApp.SnapshotPanel | src/App.js:66-79 | the panel lists the records of the well object captured on click |
| LegacyApp.SnapshotPanelMissesAddedRecord | src/App.js:14-27 | a record added to the open well is stored, yet the open panel still lists no records |
| LegacyApp.PanelRecords | src/App.js:66-79 | the panel looked up by id lists the records of the current well with that id, whenever that well exists |
| LegacyApp.AddedRecordShown | src/App.js:14-27 | with the panel looked up by id, an added record shows last, after the records shown before |

## Left out

- Rendering, styling, animation and drawing the QR code are left out. The
  model keeps only the text the QR code encodes.
- Browser persistence is left out: `localStorage` and JSON in
  `wellbuddy-app/src/App.jsx:319-350`. The model starts from the seed, the
  branch taken when nothing has been saved.
- Firebase is an abstract store (`Firestore.Store`): every call is one
  atomic step. The internals of that library are not part of this model.
- The descending date order of the records query comes from the store. The
  query's result is a parameter of `WellDetail.DetailView.Load` (`docs`). It
  must hold every stored record of the well exactly once, in any order.
- Async interleavings between `await`s are left out, and so are
  last-write-wins races. Each handler is atomic.
- A failed write ends a handler before its local update. The model keeps
  that failure only where the store can refuse (an update of a missing
  document).
- Sign-in and sign-out (`AuthContext.jsx`, `Login.jsx`) are not part of
  this model. The user is an `Option` of a uid.
- `Date.now()`, `crypto.randomUUID()`, `new Date()` and the id `addDoc`
  assigns are parameters. The store's fresh ids are assumed unused, as a
  precondition.
- Environment lookups are parameters of the `SafeQrValue` functions:
  `process.env`, `import.meta.env` and `window.location.origin`.
- `Number(id)` on the route parameter (`wellbuddy-app/src/App.jsx:201`) is
  left out, and so is rendering a numeric id as text in a link. Ids are
  integers in `LocalApp` and text in `HashRoute`.
- Only the links the app builds are routed. The router's percent-decoding is
  left out, and so is its matching of a trailing slash (`/well/1/`) and of
  `/well/` in another letter case.
- `LocalApp.MaxId`: `Math.max` is over unbounded integers, not IEEE doubles.
  Ids above 2^53 would round in JavaScript.
- LocalApp.PatchWell: only the properties the pages pass to `updateWell` are
  modelled. An update carrying `id` (which no caller sends) would change a
  well's id in JavaScript.
- Firestore.PatchWell: `id` and `owner` are likewise never part of an
  update, so the merge keeps them.
- `wellbuddy-app/src/App.jsx:28-88` holds an older copy of the click-to-edit
  field without the `canEdit` prop. It behaves as `InlineEdit.Step` with
  `canEdit` true and every save accepted: its `save` does not await
  `onSave`, so it always closes the editor.
- Firestore.Store.CreateWell: the store lists a created well last. Firestore
  promises no such order: the owner query (`wellbuddy-app/src/WellBuddyApp.jsx:30`)
  returns documents in document-id order, and the id is random. So
  `Dashboard.Dashboard.Synced` compares the list with the query as multisets,
  and `Dashboard.CreatedWellAnywhere` shows the order does not matter. After a
  reload the dashboard may list a new well elsewhere.
- InlineEdit.Step: a rejected `onSave` is the event's `accepted` flag. The
  editor stays open with its draft; the unhandled rejection the browser
  reports is left out.
- The QR link of `src/App.js:46` is a placeholder URL outside the hash
  route. It is left out.
- The records in `src/App.js` carry a date as a number of milliseconds. How
  `toLocaleString` formats it is left out.
- Home.jsx's own form state is left out: it is rendering around the guard
  that `Dashboard.Dashboard.HandleAddWell` models.

## Findings

| source | as written | input that shows it | evidently intended | confidence | as-written member | corrected member |
|---|---|---|---|---|---|---|
| src/App.js:14-27 | `addRecord` updates `wells` but leaves `selectedWell`, the well object captured by "View Records". The open panel renders that stale object, so the added record is not shown until the panel is opened again. | Click "View Records" on Well A, type "pump replaced", click Add: Well A now holds the record, yet the panel still says "No records yet." | the open panel lists the current records of the selected well, the new record last | not executed; high that the panel misses the record, medium that this was unintended | LegacyApp.SnapshotPanelMissesAddedRecord | LegacyApp.AddedRecordShown |
