/** The browser-only variant of the app (wellbuddy-app/src/App.jsx). The root
    component keeps every well and every record in two lists; the home page
    appends wells through a small form, and a well's detail page lists the
    records whose `wellId` names it, split into service and maintenance
    records, edits wells and records one property at a time, and appends
    records under a fresh numeric id. */
module LocalApp {
  import opened Collections
  import HashRoute

  // ---------------------------------------------------------------------
  // Entities
  // ---------------------------------------------------------------------

  /** A well. The equipment properties are absent on the two seeded wells and
      on wells added from the home page until an inline edit sets them. */
  datatype Well = Well(
    id: int,
    name: string,
    location: string,
    rodInfo: Option<string>,
    tubingInfo: Option<string>,
    pumpInfo: Option<string>,
    polishRodLiner: Option<string>,
    packing: Option<string>)

  /** The properties the detail page passes to `updateWell`: any of the
      editable ones, never `id`. */
  datatype WellPatch = WellPatch(
    name: Option<string>,
    location: Option<string>,
    rodInfo: Option<string>,
    tubingInfo: Option<string>,
    pumpInfo: Option<string>,
    polishRodLiner: Option<string>,
    packing: Option<string>)

  /** A service or maintenance record; `kind` is the source's `type`
      property. A record loaded from earlier saved data may lack an `id`. */
  datatype Record = Record(
    id: Option<int>,
    wellId: int,
    kind: string,
    date: string,
    operator: string,
    notes: string)

  /** The properties the detail page passes to `updateRecord`. */
  datatype RecordPatch = RecordPatch(
    date: Option<string>,
    operator: Option<string>,
    notes: Option<string>)

  const Service: string := "service"
  const Maintenance: string := "maintenance"

  /** `{ ...w, ...updates }` */
  function PatchWell(w: Well, u: WellPatch): (r: Well)
    ensures r.id == w.id
    ensures u == WellPatch(None, None, None, None, None, None, None) ==> r == w
  {
    Well(w.id,
         Overlay(u.name, w.name),
         Overlay(u.location, w.location),
         if u.rodInfo.Some? then u.rodInfo else w.rodInfo,
         if u.tubingInfo.Some? then u.tubingInfo else w.tubingInfo,
         if u.pumpInfo.Some? then u.pumpInfo else w.pumpInfo,
         if u.polishRodLiner.Some? then u.polishRodLiner else w.polishRodLiner,
         if u.packing.Some? then u.packing else w.packing)
  }

  /** `{ ...r, ...updates }` */
  function PatchRecord(r: Record, u: RecordPatch): (r': Record)
    ensures r'.id == r.id && r'.wellId == r.wellId && r'.kind == r.kind
    ensures u == RecordPatch(None, None, None) ==> r' == r
  {
    r.(date := Overlay(u.date, r.date),
       operator := Overlay(u.operator, r.operator),
       notes := Overlay(u.notes, r.notes))
  }

  // The callbacks handed to `find`, `filter` and `map`.

  function WellHasId(id: int): Well -> bool { (w: Well) => w.id == id }
  function WellPatcher(u: WellPatch): Well -> Well { (w: Well) => PatchWell(w, u) }
  function RecordHasId(id: Option<int>): Record -> bool { (r: Record) => r.id == id }
  function RecordPatcher(u: RecordPatch): Record -> Record { (r: Record) => PatchRecord(r, u) }
  function OfWell(wellId: int): Record -> bool { (r: Record) => r.wellId == wellId }
  function OfKind(kind: string): Record -> bool { (r: Record) => r.kind == kind }
  function OfWellAndKind(wellId: int, kind: string): Record -> bool { (r: Record) => r.wellId == wellId && r.kind == kind }

  // ---------------------------------------------------------------------
  // The list operations behind the root component's CRUD callbacks
  // ---------------------------------------------------------------------

  /** `updateWell(id, updates)`: every well with that id is patched, every
      other well is kept, and the list keeps its length and order. */
  function UpdateWells(wells: seq<Well>, id: int, u: WellPatch): (r: seq<Well>)
    ensures |r| == |wells|
    ensures forall i :: 0 <= i < |wells| && wells[i].id == id ==> r[i] == PatchWell(wells[i], u)
    ensures forall i :: 0 <= i < |wells| && wells[i].id != id ==> r[i] == wells[i]
    ensures forall i :: 0 <= i < |wells| ==> r[i].id == wells[i].id
  {
    UpdateWhere(wells, WellHasId(id), WellPatcher(u))
  }

  /** `updateRecord(id, updates)`: the same merge by id over the records. */
  function UpdateRecords(records: seq<Record>, id: Option<int>, u: RecordPatch): (r: seq<Record>)
    ensures |r| == |records|
    ensures forall i :: 0 <= i < |records| && records[i].id == id ==> r[i] == PatchRecord(records[i], u)
    ensures forall i :: 0 <= i < |records| && records[i].id != id ==> r[i] == records[i]
    ensures forall i :: 0 <= i < |records| ==>
              r[i].id == records[i].id && r[i].wellId == records[i].wellId && r[i].kind == records[i].kind
  {
    UpdateWhere(records, RecordHasId(id), RecordPatcher(u))
  }

  /** `wells.find((w) => w.id === wellId)` */
  function FindWell(wells: seq<Well>, id: int): (r: Option<Well>)
    ensures r.None? <==> forall w :: w in wells ==> w.id != id
    ensures r.Some? ==> r.value in wells && r.value.id == id
    ensures r.Some? ==> exists k :: 0 <= k < |wells| && wells[k] == r.value && forall j :: 0 <= j < k ==> wells[j].id != id
  {
    Find(wells, WellHasId(id))
  }

  /** Reading a well back after `updateWell` gives the old well with the
      patch's properties overwritten and every other property unchanged. */
  lemma UpdateThenFindWell(wells: seq<Well>, id: int, u: WellPatch)
    ensures FindWell(UpdateWells(wells, id, u), id)
              == if FindWell(wells, id).Some? then Some(PatchWell(FindWell(wells, id).value, u)) else None
  {
    FindAfterUpdate(wells, WellHasId(id), WellPatcher(u));
  }

  // ---------------------------------------------------------------------
  // The detail page's record lists
  // ---------------------------------------------------------------------

  /** `records.filter((r) => r.wellId === wellId)` */
  function RelatedRecords(records: seq<Record>, wellId: int): (r: seq<Record>)
    ensures forall x :: x in r <==> x in records && x.wellId == wellId
  {
    Filter(records, OfWell(wellId))
  }

  /** `relatedRecords.filter((r) => r.type === kind)` */
  function KindRecords(records: seq<Record>, kind: string): (r: seq<Record>)
    ensures forall x :: x in r <==> x in records && x.kind == kind
  {
    Filter(records, OfKind(kind))
  }

  /** A well page's service (or maintenance) list is the order-preserving
      sub-list of all records that belong to the well and have that kind. */
  lemma KindListIsSubList(records: seq<Record>, wellId: int, kind: string)
    ensures KindRecords(RelatedRecords(records, wellId), kind) == Filter(records, OfWellAndKind(wellId, kind))
  {
    FilterComposes(records, OfWell(wellId), OfKind(kind), OfWellAndKind(wellId, kind));
  }

  /** The service and maintenance lists never share a record, and when every
      record of the well has one of the two kinds they split its records. */
  lemma KindListsPartition(related: seq<Record>)
    ensures forall x :: x in KindRecords(related, Service) ==> x !in KindRecords(related, Maintenance)
    ensures (forall x :: x in related ==> x.kind == Service || x.kind == Maintenance) ==>
              multiset(KindRecords(related, Service)) + multiset(KindRecords(related, Maintenance)) == multiset(related)
              && |KindRecords(related, Service)| + |KindRecords(related, Maintenance)| == |related|
  {
    assert Service[0] != Maintenance[0];
    if forall x :: x in related ==> x.kind == Service || x.kind == Maintenance {
      FilterPartition(related, OfKind(Service), OfKind(Maintenance));
    }
  }

  // ---------------------------------------------------------------------
  // Record ids
  // ---------------------------------------------------------------------

  /** `r.id || 0`: a missing id counts as 0. */
  function IdOrZero(r: Record): int {
    GetOr(r.id, 0)
  }

  function Max(a: int, b: int): int {
    if a < b then b else a
  }

  /** `Math.max(...records.map((r) => r.id || 0))` */
  function MaxId(records: seq<Record>): (m: int)
    requires records != []
    ensures forall x :: x in records ==> IdOrZero(x) <= m
    ensures exists x :: x in records && IdOrZero(x) == m
  {
    if |records| == 1 then IdOrZero(records[0])
    else
      var rest := MaxId(records[1..]);
      assert records[1..][0] in records;
      Max(IdOrZero(records[0]), rest)
  }

  /** The id `handleAdd` gives a new record: 1 for the first record,
      otherwise one more than the largest existing id. It is larger than the
      id of every record, whatever well the record belongs to. */
  function NextRecordId(records: seq<Record>): (id: int)
    ensures forall x :: x in records ==> IdOrZero(x) < id
    ensures records == [] ==> id == 1
    ensures records != [] ==> exists x :: x in records && id == IdOrZero(x) + 1
  {
    if |records| > 0 then MaxId(records) + 1 else 1
  }

  /** `{ id: newId, wellId, type, date, operator, notes }`: its id differs
      from the id of every record already in the list. */
  function NewRecord(records: seq<Record>, wellId: int, kind: string, date: string, operator: string, notes: string): (r: Record)
    ensures r.id.Some? && forall x :: x in records ==> x.id != r.id
    ensures r.wellId == wellId && r.kind == kind && r.date == date && r.operator == operator && r.notes == notes
  {
    Record(Some(NextRecordId(records)), wellId, kind, date, operator, notes)
  }

  // ---------------------------------------------------------------------
  // First run
  // ---------------------------------------------------------------------

  /** The wells shown when nothing has been saved yet. */
  function SeedWells(): seq<Well> {
    [Well(1, "Well A", "Texas", None, None, None, None, None),
     Well(2, "Well B", "North Dakota", None, None, None, None, None)]
  }

  /** The records shown when nothing has been saved yet. */
  function SeedRecords(): seq<Record> {
    [Record(Some(1), 1, Service, "2025-09-05", "John Doe", "Routine check"),
     Record(Some(2), 2, Maintenance, "2025-09-06", "Jane Smith", "Changed belts")]
  }

  /** The table invariant the handlers keep: every record has an id, no two
      records share one, and every record's `wellId` names a listed well. */
  predicate Consistent(wells: seq<Well>, records: seq<Record>) {
    (forall i :: 0 <= i < |records| ==> records[i].id.Some?)
    && (forall i, j :: 0 <= i < j < |records| ==> records[i].id != records[j].id)
    && (forall i :: 0 <= i < |records| ==> FindWell(wells, records[i].wellId).Some?)
  }

  /** The seed is two wells with ids 1 and 2 and two records, each naming
      one of the seeded wells. */
  lemma SeedIsConsistent()
    ensures |SeedWells()| == 2 && SeedWells()[0].id == 1 && SeedWells()[1].id == 2
    ensures |SeedRecords()| == 2
    ensures Consistent(SeedWells(), SeedRecords())
  {
    assert SeedWells()[0] in SeedWells();
    assert SeedWells()[1] in SeedWells();
  }

  /** Appending a well keeps the table invariant. */
  lemma AddWellKeepsConsistent(wells: seq<Well>, records: seq<Record>, w: Well)
    requires Consistent(wells, records)
    ensures Consistent(wells + [w], records)
  {
    forall i | 0 <= i < |records|
      ensures FindWell(wells + [w], records[i].wellId).Some?
    {
      var found := FindWell(wells, records[i].wellId).value;
      assert found in wells + [w];
    }
  }

  /** Patching wells and records keeps the table invariant: patches never
      touch `id`, `wellId` or `type`. */
  lemma UpdatesKeepConsistent(wells: seq<Well>, records: seq<Record>, id: int, u: WellPatch,
                              recordId: Option<int>, ru: RecordPatch)
    requires Consistent(wells, records)
    ensures Consistent(UpdateWells(wells, id, u), records)
    ensures Consistent(wells, UpdateRecords(records, recordId, ru))
  {
    var wells' := UpdateWells(wells, id, u);
    forall i | 0 <= i < |records|
      ensures FindWell(wells', records[i].wellId).Some?
    {
      var k := FirstIndex(wells, WellHasId(records[i].wellId));
      assert wells'[k] in wells';
    }
  }

  /** Appending a record keeps the table invariant when its id is present
      and fresh and its well is listed, as for every record `handleAdd`
      creates. */
  lemma AppendRecordKeepsConsistent(wells: seq<Well>, records: seq<Record>, r: Record)
    requires Consistent(wells, records)
    requires r.id.Some? && forall x :: x in records ==> x.id != r.id
    requires FindWell(wells, r.wellId).Some?
    ensures Consistent(wells, records + [r])
  {
    var all := records + [r];
    forall i, j | 0 <= i < j < |all| ensures all[i].id != all[j].id {
      if j == |records| {
        assert all[i] in records;
      }
    }
  }

  // ---------------------------------------------------------------------
  // QR deep link
  // ---------------------------------------------------------------------

  const ProductionOrigin: string := "https://lewis57350.github.io/Oilwell-app"
  const DevelopmentOrigin: string := "http://localhost:3000"

  /** `safeQrValue(id)`: the link to the well's page, on the published site
      in a production build and on the development server otherwise. In
      both modes the part after the first '#' is the route `/well/{id}`. */
  function SafeQrValue(production: bool, id: string): (url: string)
    ensures HashRoute.Fragment(url) == Some(HashRoute.WellRoute + id)
    ensures url[|url| - |id|..] == id
  {
    var origin := if production then ProductionOrigin else DevelopmentOrigin;
    assert '#' !in origin;
    HashRoute.WellLinkFragment(origin, id);
    HashRoute.WellLink(origin, id)
  }

  // ---------------------------------------------------------------------
  // Component state
  // ---------------------------------------------------------------------

  /** The root component's `wells` and `records` state and its four CRUD
      callbacks. */
  class LocalStore {
    var wells: seq<Well>
    var records: seq<Record>

    ghost predicate Valid()
      reads this
    {
      Consistent(wells, records)
    }

    /** The startup branch taken when nothing has been saved. */
    constructor Seeded()
      ensures wells == SeedWells() && records == SeedRecords()
      ensures Valid()
    {
      wells := SeedWells();
      records := SeedRecords();
      SeedIsConsistent();
    }

    /** `addWell(well)` */
    method AddWell(w: Well)
      modifies this
      ensures wells == old(wells) + [w] && records == old(records)
      ensures old(Valid()) ==> Valid()
    {
      if Valid() {
        AddWellKeepsConsistent(wells, records, w);
      }
      wells := wells + [w];
    }

    /** `updateWell(id, updates)` */
    method UpdateWell(id: int, u: WellPatch)
      modifies this
      ensures wells == UpdateWells(old(wells), id, u) && records == old(records)
      ensures old(Valid()) ==> Valid()
    {
      if Valid() {
        UpdatesKeepConsistent(wells, records, id, u, None, RecordPatch(None, None, None));
      }
      wells := UpdateWells(wells, id, u);
    }

    /** `addRecord(record)` */
    method AddRecord(r: Record)
      modifies this
      ensures records == old(records) + [r] && wells == old(wells)
      ensures (old(Valid()) && r.id.Some? && (forall x :: x in old(records) ==> x.id != r.id)
               && FindWell(wells, r.wellId).Some?) ==> Valid()
    {
      if Valid() && r.id.Some? && (forall x :: x in records ==> x.id != r.id) && FindWell(wells, r.wellId).Some? {
        AppendRecordKeepsConsistent(wells, records, r);
      }
      records := records + [r];
    }

    /** `updateRecord(id, updates)` */
    method UpdateRecord(id: Option<int>, u: RecordPatch)
      modifies this
      ensures records == UpdateRecords(old(records), id, u) && wells == old(wells)
      ensures old(Valid()) ==> Valid()
    {
      if Valid() {
        UpdatesKeepConsistent(wells, records, 0, WellPatch(None, None, None, None, None, None, None), id, u);
      }
      records := UpdateRecords(records, id, u);
    }
  }

  /** `{ id: Date.now(), name: "", location: "" }` */
  function BlankWell(now: int): Well {
    Well(now, "", "", None, None, None, None, None)
  }

  /** The home page's add-well form. `now` stands for `Date.now()`. */
  class HomeForm {
    var formOpen: bool
    var newWell: Well

    constructor (now: int)
      ensures !formOpen && newWell == BlankWell(now)
    {
      formOpen := false;
      newWell := BlankWell(now);
    }

    /** The "Add New Well" button. */
    method Open()
      modifies this
      ensures formOpen && newWell == old(newWell)
    {
      formOpen := true;
    }

    /** The form's Cancel button: the typed fields are kept. */
    method Cancel()
      modifies this
      ensures !formOpen && newWell == old(newWell)
    {
      formOpen := false;
    }

    /** Typing into the name and location inputs. */
    method Fill(name: string, location: string)
      modifies this
      ensures newWell == old(newWell).(name := name, location := location)
      ensures formOpen == old(formOpen)
    {
      newWell := newWell.(name := name, location := location);
    }

    /** `handleAddWell`: nothing happens unless both name and location are
      filled in; otherwise the drafted well is appended and the form is
      cleared under a new timestamp id and closed. */
    method HandleAddWell(store: LocalStore, now: int)
      modifies this, store
      ensures store.records == old(store.records)
      ensures !(Truthy(old(newWell.name)) && Truthy(old(newWell.location))) ==>
                store.wells == old(store.wells) && newWell == old(newWell) && formOpen == old(formOpen)
      ensures Truthy(old(newWell.name)) && Truthy(old(newWell.location)) ==>
                store.wells == old(store.wells) + [old(newWell)] && newWell == BlankWell(now) && !formOpen
      ensures old(store.Valid()) ==> store.Valid()
    {
      if !Truthy(newWell.name) || !Truthy(newWell.location) {
        return;
      }
      store.AddWell(newWell);
      newWell := BlankWell(now);
      formOpen := false;
    }
  }

  /** The add-record form of a well's detail page. It exists only for a well
      the page found, and it never resets the chosen `type`. */
  class RecordForm {
    const wellId: int
    var formOpen: bool
    var kind: string
    var date: string
    var operator: string
    var notes: string

    constructor (wellId: int)
      ensures this.wellId == wellId && !formOpen
      ensures kind == Service && date == "" && operator == "" && notes == ""
    {
      this.wellId := wellId;
      formOpen := false;
      kind := Service;
      date, operator, notes := "", "", "";
    }

    /** The "Add New Record" button. */
    method Open()
      modifies this
      ensures formOpen
      ensures kind == old(kind) && date == old(date) && operator == old(operator) && notes == old(notes)
    {
      formOpen := true;
    }

    /** The form's Cancel button: the typed fields are kept. */
    method Cancel()
      modifies this
      ensures !formOpen
      ensures kind == old(kind) && date == old(date) && operator == old(operator) && notes == old(notes)
    {
      formOpen := false;
    }

    /** Choosing the type and typing into the date, operator and notes inputs. */
    method Fill(kind: string, date: string, operator: string, notes: string)
      modifies this
      ensures this.kind == kind && this.date == date && this.operator == operator && this.notes == notes
      ensures formOpen == old(formOpen)
    {
      this.kind, this.date, this.operator, this.notes := kind, date, operator, notes;
    }

    /** `handleAdd`: with an empty date or operator nothing changes;
      otherwise a record under a fresh id is appended to all records and the
      date, operator and notes inputs are cleared and the form closed. */
    method HandleAdd(store: LocalStore)
      requires FindWell(store.wells, wellId).Some?
      modifies this, store
      ensures store.wells == old(store.wells) && kind == old(kind)
      ensures !(Truthy(old(date)) && Truthy(old(operator))) ==>
                store.records == old(store.records) && formOpen == old(formOpen)
                && date == old(date) && operator == old(operator) && notes == old(notes)
      ensures Truthy(old(date)) && Truthy(old(operator)) ==>
                store.records == old(store.records)
                  + [NewRecord(old(store.records), wellId, old(kind), old(date), old(operator), old(notes))]
                && date == "" && operator == "" && notes == "" && !formOpen
      ensures old(store.Valid()) ==> store.Valid()
    {
      if Truthy(date) && Truthy(operator) {
        store.AddRecord(NewRecord(store.records, wellId, kind, date, operator, notes));
        date, operator, notes := "", "", "";
        formOpen := false;
      }
    }
  }
}
