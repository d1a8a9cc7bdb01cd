/** The hosted document database the signed-in variant of the app reads and
    writes, reduced to what its pages use: a `wells` collection (queried by
    owner, read and written by document id) and, under each well, a
    `records` collection keyed by store-assigned document ids. Each call is
    one atomic step; a fresh id is an input of the step that creates it. */
module Firestore {
  import opened Collections

  /** A well document as the dashboard creates it; its document id is `id`. */
  datatype Well = Well(
    id: string,
    owner: string,
    name: string,
    location: string,
    rodInfo: string,
    tubingInfo: string,
    pumpInfo: string,
    polishRodLiner: string,
    packing: string)

  /** The properties the detail page passes to `updateWell`: any of the
      editable ones, never `id` or `owner`. */
  datatype WellPatch = WellPatch(
    name: Option<string>,
    location: Option<string>,
    rodInfo: Option<string>,
    tubingInfo: Option<string>,
    pumpInfo: Option<string>,
    polishRodLiner: Option<string>,
    packing: Option<string>)

  /** The stored properties of a record document (`type` is `kind` here). */
  datatype Entry = Entry(kind: string, date: string, operator: string, notes: string)

  /** A record as a page holds it: `{ id: d.id, ...d.data() }`. */
  datatype Record = Record(id: string, kind: string, date: string, operator: string, notes: string)

  /** The properties the detail page passes to `updateRecord`. */
  datatype RecordPatch = RecordPatch(date: Option<string>, operator: Option<string>, notes: Option<string>)

  function WithId(id: string, e: Entry): Record {
    Record(id, e.kind, e.date, e.operator, e.notes)
  }

  function EntryOf(r: Record): Entry {
    Entry(r.kind, r.date, r.operator, r.notes)
  }

  /** `{ ...w, ...updates }`, in the store and on the page alike. */
  function PatchWell(w: Well, u: WellPatch): (r: Well)
    ensures r.id == w.id && r.owner == w.owner
    ensures u == WellPatch(None, None, None, None, None, None, None) ==> r == w
  {
    Well(w.id, w.owner,
         Overlay(u.name, w.name),
         Overlay(u.location, w.location),
         Overlay(u.rodInfo, w.rodInfo),
         Overlay(u.tubingInfo, w.tubingInfo),
         Overlay(u.pumpInfo, w.pumpInfo),
         Overlay(u.polishRodLiner, w.polishRodLiner),
         Overlay(u.packing, w.packing))
  }

  /** The merge `updateDoc` performs on a record document. */
  function PatchEntry(e: Entry, u: RecordPatch): (r: Entry)
    ensures r.kind == e.kind
    ensures u == RecordPatch(None, None, None) ==> r == e
  {
    e.(date := Overlay(u.date, e.date),
       operator := Overlay(u.operator, e.operator),
       notes := Overlay(u.notes, e.notes))
  }

  /** The merge a page performs on its copy of a record: it keeps the id and
      agrees with the merge the store performs on the document. */
  function PatchRecord(r: Record, u: RecordPatch): (r': Record)
    ensures r'.id == r.id
    ensures EntryOf(r') == PatchEntry(EntryOf(r), u)
  {
    r.(date := Overlay(u.date, r.date),
       operator := Overlay(u.operator, r.operator),
       notes := Overlay(u.notes, r.notes))
  }

  // The callbacks handed to `find`, `filter` and `map`.

  function WellHasId(id: string): Well -> bool { (w: Well) => w.id == id }
  function WellPatcher(u: WellPatch): Well -> Well { (w: Well) => PatchWell(w, u) }
  function OwnedBy(uid: string): Well -> bool { (w: Well) => w.owner == uid }

  /** The database. `wells` lists the well documents in the order the store
      returns them to a query; `records` maps a well's id to its record
      documents by document id. */
  class Store {
    var wells: seq<Well>
    var records: map<string, map<string, Entry>>

    constructor (wells: seq<Well>, records: map<string, map<string, Entry>>)
      ensures this.wells == wells && this.records == records
    {
      this.wells := wells;
      this.records := records;
    }

    /** `getDoc(doc(db, "wells", id))` */
    function Get(id: string): Option<Well>
      reads this
    {
      Find(wells, WellHasId(id))
    }

    /** The documents of `wells/{wellId}/records`, by document id. */
    function Collection(wellId: string): map<string, Entry>
      reads this
    {
      if wellId in records then records[wellId] else map[]
    }

    /** `setDoc(doc(db, "wells", w.id), w)` at a fresh id: the document is
        created. */
    method CreateWell(w: Well)
      requires Get(w.id).None?
      modifies this
      ensures wells == old(wells) + [w] && records == old(records)
    {
      wells := wells + [w];
    }

    /** `updateDoc(doc(db, "wells", id), updates)`: merges the patch into the
        document and reports whether it exists (the call rejects otherwise). */
    method UpdateWell(id: string, u: WellPatch) returns (ok: bool)
      modifies this
      ensures ok == old(Get(id)).Some?
      ensures wells == UpdateWhere(old(wells), WellHasId(id), WellPatcher(u))
      ensures records == old(records)
    {
      ok := Get(id).Some?;
      wells := UpdateWhere(wells, WellHasId(id), WellPatcher(u));
    }

    /** `addDoc(collection(db, "wells", wellId, "records"), e)`, which the
        store files under the fresh document id `freshId`. */
    method AddRecord(wellId: string, e: Entry, freshId: string)
      requires freshId !in Collection(wellId)
      modifies this
      ensures records == old(records)[wellId := old(Collection(wellId))[freshId := e]]
      ensures wells == old(wells)
    {
      records := records[wellId := Collection(wellId)[freshId := e]];
    }

    /** `updateDoc(doc(db, "wells", wellId, "records", recId), updates)`:
        merges the patch into the document and reports whether it exists. */
    method UpdateRecord(wellId: string, recId: string, u: RecordPatch) returns (ok: bool)
      modifies this
      ensures ok == (recId in old(Collection(wellId)))
      ensures ok ==> records == old(records)[wellId := old(Collection(wellId))[recId := PatchEntry(old(Collection(wellId))[recId], u)]]
      ensures !ok ==> records == old(records)
      ensures wells == old(wells)
    {
      var coll := Collection(wellId);
      ok := recId in coll;
      if ok {
        records := records[wellId := coll[recId := PatchEntry(coll[recId], u)]];
      }
    }
  }
}
