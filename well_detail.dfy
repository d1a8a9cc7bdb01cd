/** The signed-in variant's well page (wellbuddy-app/src/components/WellDetail.jsx).
    It loads one well document and its records, lets the well's owner edit
    the well and the records one property at a time and add records, and
    keeps its own copies in step with what it writes to the store. */
module WellDetail {
  import opened Collections
  import opened Firestore
  import HashRoute

  /** `user && user.uid === well.owner`: the single permission check behind
      every editing control on the page. */
  function CanEdit(user: Option<string>, well: Well): (b: bool)
    ensures b <==> user.Some? && user.value == well.owner
  {
    match user
    case None => false
    case Some(uid) => uid == well.owner
  }

  /** The creator of a well may edit it; any other signed-in user, and a
      signed-out visitor, may not. */
  lemma OnlyTheOwnerEdits(well: Well, uid: string, other: string)
    requires CanEdit(Some(uid), well)
    ensures CanEdit(Some(other), well) <==> other == uid
    ensures !CanEdit(None, well)
  {
  }

  // ---------------------------------------------------------------------
  // Record lists
  // ---------------------------------------------------------------------

  const Service: string := "service"
  const Maintenance: string := "maintenance"

  function RecordHasId(id: string): Record -> bool { (r: Record) => r.id == id }
  function RecordPatcher(u: RecordPatch): Record -> Record { (r: Record) => PatchRecord(r, u) }
  function OfKind(kind: string): Record -> bool { (r: Record) => r.kind == kind }

  /** `records.filter((r) => r.type === "service")` */
  function ServiceRecords(records: seq<Record>): (r: seq<Record>)
    ensures forall x :: x in r <==> x in records && x.kind == Service
  {
    Filter(records, OfKind(Service))
  }

  /** `records.filter((r) => r.type === "maintenance")` */
  function MaintenanceRecords(records: seq<Record>): (r: seq<Record>)
    ensures forall x :: x in r <==> x in records && x.kind == Maintenance
  {
    Filter(records, OfKind(Maintenance))
  }

  /** Both lists keep the page's order: filtering a concatenation is the
      concatenation of the filtered parts. No record is in both lists, and
      when every record has one of the two kinds they split the records. */
  lemma KindListsPartition(records: seq<Record>, more: seq<Record>)
    ensures ServiceRecords(records + more) == ServiceRecords(records) + ServiceRecords(more)
    ensures MaintenanceRecords(records + more) == MaintenanceRecords(records) + MaintenanceRecords(more)
    ensures forall x :: x in ServiceRecords(records) ==> x !in MaintenanceRecords(records)
    ensures (forall x :: x in records ==> x.kind == Service || x.kind == Maintenance) ==>
              multiset(ServiceRecords(records)) + multiset(MaintenanceRecords(records)) == multiset(records)
              && |ServiceRecords(records)| + |MaintenanceRecords(records)| == |records|
  {
    FilterConcat(records, more, OfKind(Service));
    FilterConcat(records, more, OfKind(Maintenance));
    assert Service[0] != Maintenance[0];
    if forall x :: x in records ==> x.kind == Service || x.kind == Maintenance {
      FilterPartition(records, OfKind(Service), OfKind(Maintenance));
    }
  }

  /** `prev.map((r) => (r.id === recId ? { ...r, ...updates } : r))` */
  function UpdateRecords(records: seq<Record>, recId: string, u: RecordPatch): (r: seq<Record>)
    ensures |r| == |records|
    ensures forall i :: 0 <= i < |records| && records[i].id == recId ==> r[i] == PatchRecord(records[i], u)
    ensures forall i :: 0 <= i < |records| && records[i].id != recId ==> r[i] == records[i]
  {
    UpdateWhere(records, RecordHasId(recId), RecordPatcher(u))
  }

  /** Every shown record is the stored document with its id. */
  predicate ShownAreStored(records: seq<Record>, stored: map<string, Entry>) {
    forall i :: 0 <= i < |records| ==> records[i].id in stored && stored[records[i].id] == EntryOf(records[i])
  }

  /** No id is shown twice. */
  predicate DistinctIds(records: seq<Record>) {
    forall i, j :: 0 <= i < j < |records| ==> records[i].id != records[j].id
  }

  /** Every stored document is shown. */
  predicate CoversStored(records: seq<Record>, stored: map<string, Entry>) {
    forall k :: k in stored ==> exists i :: 0 <= i < |records| && records[i].id == k
  }

  /** The ids of the shown records. */
  function Ids(records: seq<Record>): set<string> {
    if records == [] then {} else {records[0].id} + Ids(records[1..])
  }

  /** The page shows exactly the stored records, each once: the shown
      records are stored ones, no id is shown twice, and there are as many
      shown records as stored documents. */
  predicate Mirrors(records: seq<Record>, stored: map<string, Entry>) {
    ShownAreStored(records, stored) && DistinctIds(records) && |records| == |stored|
  }

  lemma {:induction false} IdsOfDistinct(records: seq<Record>)
    requires DistinctIds(records)
    ensures |Ids(records)| == |records|
    ensures forall i :: 0 <= i < |records| ==> records[i].id in Ids(records)
    ensures forall k :: k in Ids(records) ==> exists i :: 0 <= i < |records| && records[i].id == k
  {
    if records != [] {
      var rest := records[1..];
      assert DistinctIds(rest) by {
        forall i, j | 0 <= i < j < |rest|
          ensures rest[i].id != rest[j].id
        {
          assert rest[i] == records[i + 1] && rest[j] == records[j + 1];
        }
      }
      IdsOfDistinct(rest);
      forall i | 0 <= i < |rest|
        ensures rest[i].id != records[0].id
      {
        assert rest[i] == records[i + 1];
      }
      assert records[0].id !in Ids(rest);
      forall i | 0 <= i < |records|
        ensures records[i].id in Ids(records)
      {
        if i > 0 {
          assert records[i] == rest[i - 1];
        }
      }
      forall k | k in Ids(records)
        ensures exists i :: 0 <= i < |records| && records[i].id == k
      {
        if k != records[0].id {
          var i :| 0 <= i < |rest| && rest[i].id == k;
          assert records[i + 1] == rest[i];
        }
      }
    }
  }

  /** A mirror leaves no stored document out: every stored id is shown. */
  lemma MirrorsCoversStored(records: seq<Record>, stored: map<string, Entry>)
    requires Mirrors(records, stored)
    ensures CoversStored(records, stored)
    ensures Ids(records) == stored.Keys
  {
    IdsOfDistinct(records);
    var ids := Ids(records);
    assert ids <= stored.Keys;
    assert |stored.Keys| == |stored|;
    if ids != stored.Keys {
      assert exists k :: k in stored.Keys && k !in ids;
      var k :| k in stored.Keys && k !in ids;
      assert ids <= stored.Keys - {k};
      assert |stored.Keys - {k}| == |stored.Keys| - 1;
      SubsetCard(ids, stored.Keys - {k});
    }
  }

  lemma SubsetCard(a: set<string>, b: set<string>)
    requires a <= b
    ensures |a| <= |b|
  {
    assert b == a + (b - a);
  }

  /** Putting a freshly stored record in front keeps the page's copy in step
      with the store. */
  lemma PrependKeepsMirror(records: seq<Record>, stored: map<string, Entry>, freshId: string, e: Entry)
    requires Mirrors(records, stored) && freshId !in stored
    ensures Mirrors([WithId(freshId, e)] + records, stored[freshId := e])
  {
    var all := [WithId(freshId, e)] + records;
    var stored' := stored[freshId := e];
    forall i | 0 <= i < |all|
      ensures all[i].id in stored' && stored'[all[i].id] == EntryOf(all[i])
    {
      if i > 0 {
        assert all[i] == records[i - 1];
      }
    }
    forall i, j | 0 <= i < j < |all|
      ensures all[i].id != all[j].id
    {
      assert all[j] == records[j - 1];
      if i > 0 {
        assert all[i] == records[i - 1];
      }
    }
  }

  /** Merging a patch into the shown records with an id, as the store merges
      it into the document with that id, keeps the two in step. */
  lemma UpdateKeepsMirror(records: seq<Record>, stored: map<string, Entry>, recId: string, u: RecordPatch)
    requires Mirrors(records, stored) && recId in stored
    ensures Mirrors(UpdateRecords(records, recId, u), stored[recId := PatchEntry(stored[recId], u)])
  {
    UpdateKeepsAgreement(records, stored, recId, u);
    UpdateKeepsDistinct(records, recId, u);
  }

  /** The merge never changes a record's id. */
  lemma UpdateKeepsIds(records: seq<Record>, recId: string, u: RecordPatch)
    ensures forall i :: 0 <= i < |records| ==> UpdateRecords(records, recId, u)[i].id == records[i].id
  {
    var updated := UpdateRecords(records, recId, u);
    forall i | 0 <= i < |records|
      ensures updated[i].id == records[i].id
    {
      if records[i].id == recId {
        assert updated[i] == PatchRecord(records[i], u);
      }
    }
  }

  lemma UpdateKeepsDistinct(records: seq<Record>, recId: string, u: RecordPatch)
    requires DistinctIds(records)
    ensures DistinctIds(UpdateRecords(records, recId, u))
  {
    var updated := UpdateRecords(records, recId, u);
    UpdateKeepsIds(records, recId, u);
    forall i, j | 0 <= i < j < |updated|
      ensures updated[i].id != updated[j].id
    {
      assert records[i].id != records[j].id;
    }
  }

  lemma UpdateKeepsAgreement(records: seq<Record>, stored: map<string, Entry>, recId: string, u: RecordPatch)
    requires ShownAreStored(records, stored) && recId in stored
    ensures ShownAreStored(UpdateRecords(records, recId, u), stored[recId := PatchEntry(stored[recId], u)])
  {
    var updated := UpdateRecords(records, recId, u);
    var stored' := stored[recId := PatchEntry(stored[recId], u)];
    forall i | 0 <= i < |updated|
      ensures updated[i].id in stored' && stored'[updated[i].id] == EntryOf(updated[i])
    {
      if records[i].id == recId {
        assert updated[i] == PatchRecord(records[i], u);
      } else {
        assert updated[i] == records[i];
      }
    }
  }

  // ---------------------------------------------------------------------
  // QR deep link
  // ---------------------------------------------------------------------

  const GhUsername: string := "lewis57350"
  const GhRepo: string := "wellbuddy-app"

  /** `https://${GH_USERNAME}.github.io/${GH_REPO}` */
  function PagesOrigin(): string {
    "https://" + GhUsername + ".github.io/" + GhRepo
  }

  /** `safeQrValue(id)`: the link to the well's page on the published site in
      a production build, and under the page's own origin otherwise. The
      route after the first '#' is `/well/{id}` in both modes (an origin never
      holds a '#'). */
  function SafeQrValue(production: bool, origin: string, id: string): (url: string)
    ensures production || '#' !in origin ==> HashRoute.Fragment(url) == Some(HashRoute.WellRoute + id)
    ensures |url| > |id| && url[|url| - |id|..] == id
    ensures !production ==> |url| > |origin|
    ensures !production ==> url[..|origin|] == origin
  {
    if production then
      assert '#' !in PagesOrigin();
      HashRoute.WellLinkFragment(PagesOrigin(), id);
      HashRoute.WellLink(PagesOrigin(), id)
    else
      if '#' !in origin then HashRoute.WellLinkFragment(origin, id); HashRoute.WellLink(origin, id)
      else HashRoute.WellLink(origin, id)
  }

  // ---------------------------------------------------------------------
  // The page
  // ---------------------------------------------------------------------

  /** The page's state: the route's well id, the session's user, the loaded
      well and records, and the add-record form. */
  class DetailView {
    const routeId: string
    var user: Option<string>
    var well: Option<Well>
    var records: seq<Record>
    var formOpen: bool
    var kind: string
    var date: string
    var operator: string
    var notes: string

    constructor (routeId: string, user: Option<string>)
      ensures this.routeId == routeId && this.user == user
      ensures well == None && records == []
      ensures !formOpen && kind == Service && date == "" && operator == "" && notes == ""
    {
      this.routeId := routeId;
      this.user := user;
      well := None;
      records := [];
      formOpen := false;
      kind := Service;
      date, operator, notes := "", "", "";
    }

    /** `canEdit` for the shown well; with no well the page shows only
        "Well not found". */
    function Editable(): bool
      reads this
    {
      well.Some? && CanEdit(user, well.value)
    }

    /** The page's copies agree with the store: the shown well is the stored
        document and every shown record is a stored record of the well. */
    ghost predicate Valid(store: Store)
      reads this, store
    {
      (well.Some? ==> store.Get(routeId) == well)
      && Mirrors(records, store.Collection(routeId))
    }

    /** The page's `load`: the well if its document exists, and the records
        the date-ordered query returns (`docs`: every stored record of the
        well, once). */
    method Load(store: Store, docs: seq<Record>)
      requires Mirrors(docs, store.Collection(routeId))
      modifies this
      ensures well == (if store.Get(routeId).Some? then store.Get(routeId) else old(well))
      ensures records == docs
      ensures user == old(user) && formOpen == old(formOpen) && kind == old(kind)
      ensures date == old(date) && operator == old(operator) && notes == old(notes)
      ensures old(well).None? ==> Valid(store)
    {
      var found := store.Get(routeId);
      if found.Some? {
        well := found;
      }
      records := docs;
    }

    /** The session changed; `canEdit` is computed afresh from the new user. */
    method SessionChanged(user: Option<string>)
      modifies this
      ensures this.user == user
      ensures well == old(well) && records == old(records) && formOpen == old(formOpen)
      ensures kind == old(kind) && date == old(date) && operator == old(operator) && notes == old(notes)
    {
      this.user := user;
    }

    /** `updateWell(updates)`, reached only through an editable field: the
        document is merged in the store, then the shown well. */
    method UpdateWell(store: Store, u: WellPatch)
      requires Editable() && Valid(store)
      modifies this, store
      ensures store.wells == UpdateWhere(old(store.wells), WellHasId(routeId), WellPatcher(u))
      ensures store.records == old(store.records)
      ensures well == Some(PatchWell(old(well).value, u))
      ensures user == old(user) && records == old(records) && formOpen == old(formOpen)
      ensures kind == old(kind) && date == old(date) && operator == old(operator) && notes == old(notes)
      ensures Valid(store)
    {
      FindAfterUpdate(store.wells, WellHasId(routeId), WellPatcher(u));
      ghost var coll := store.Collection(routeId);
      var ok := store.UpdateWell(routeId, u);
      assert store.Collection(routeId) == coll;
      if ok {
        well := Some(PatchWell(well.value, u));
      }
    }

    /** The "Add New Record" button, shown only to the owner. */
    method OpenForm()
      requires Editable() && !formOpen
      modifies this
      ensures formOpen
      ensures user == old(user) && well == old(well) && records == old(records)
      ensures kind == old(kind) && date == old(date) && operator == old(operator) && notes == old(notes)
    {
      formOpen := true;
    }

    /** The form's Cancel button: the typed fields are kept. */
    method CancelForm()
      requires Editable() && formOpen
      modifies this
      ensures !formOpen
      ensures user == old(user) && well == old(well) && records == old(records)
      ensures kind == old(kind) && date == old(date) && operator == old(operator) && notes == old(notes)
    {
      formOpen := false;
    }

    /** Choosing the type and typing into the form's inputs. */
    method Fill(kind: string, date: string, operator: string, notes: string)
      requires Editable() && formOpen
      modifies this
      ensures this.kind == kind && this.date == date && this.operator == operator && this.notes == notes
      ensures user == old(user) && well == old(well) && records == old(records) && formOpen
    {
      this.kind, this.date, this.operator, this.notes := kind, date, operator, notes;
    }

    /** `addRecord`, reached only through the form's Save button, which only
        the owner sees. With an empty date or operator nothing is written and
        nothing changes. Otherwise the record is stored under the id the
        store assigns (`freshId`), put first in the page's list, and the form
        is reset and closed. */
    method AddRecord(store: Store, freshId: string)
      requires Editable() && formOpen && Valid(store)
      requires freshId !in store.Collection(routeId)
      modifies this, store
      ensures !(Truthy(old(date)) && Truthy(old(operator))) ==> unchanged(this) && unchanged(store)
      ensures Truthy(old(date)) && Truthy(old(operator)) ==>
                store.records == old(store.records)[routeId :=
                  old(store.Collection(routeId))[freshId := Entry(old(kind), old(date), old(operator), old(notes))]]
                && records == [Record(freshId, old(kind), old(date), old(operator), old(notes))] + old(records)
                && date == "" && operator == "" && notes == "" && kind == Service && !formOpen
      ensures store.wells == old(store.wells) && well == old(well) && user == old(user)
      ensures Valid(store)
    {
      if !Truthy(date) || !Truthy(operator) {
        return;
      }
      var e := Entry(kind, date, operator, notes);
      PrependKeepsMirror(records, store.Collection(routeId), freshId, e);
      store.AddRecord(routeId, e, freshId);
      records := [WithId(freshId, e)] + records;
      date, operator, notes := "", "", "";
      kind := Service;
      formOpen := false;
    }

    /** `updateRecord(recId, updates)`, reached only through an editable
        field: the document is merged in the store, then every shown record
        with that id; a missing document makes the write fail and nothing
        changes. */
    method UpdateRecord(store: Store, recId: string, u: RecordPatch)
      requires Editable() && Valid(store)
      modifies this, store
      ensures recId in old(store.Collection(routeId)) ==> records == UpdateRecords(old(records), recId, u)
      ensures recId in old(store.Collection(routeId)) ==>
                store.records == old(store.records)[routeId :=
                  old(store.Collection(routeId))[recId := PatchEntry(old(store.Collection(routeId))[recId], u)]]
      ensures recId !in old(store.Collection(routeId)) ==> records == old(records) && store.records == old(store.records)
      ensures store.wells == old(store.wells) && well == old(well) && user == old(user) && formOpen == old(formOpen)
      ensures kind == old(kind) && date == old(date) && operator == old(operator) && notes == old(notes)
      ensures Valid(store)
    {
      ghost var coll := store.Collection(routeId);
      ghost var stored := store.Get(routeId);
      var ok := store.UpdateRecord(routeId, recId, u);
      assert store.Get(routeId) == stored;
      if ok {
        ghost var coll' := coll[recId := PatchEntry(coll[recId], u)];
        assert store.Collection(routeId) == coll';
        UpdateKeepsMirror(records, coll, recId, u);
        records := UpdateRecords(records, recId, u);
        assert Mirrors(records, coll');
      }
    }
  }
}
