/** The first, single-file version of the app (src/App.js): two wells held in
    component state, each with its own list of text records; "View Records"
    opens a panel on a well, where a text can be added to that well. */
module LegacyApp {
  import opened Collections

  // ---------------------------------------------------------------------
  // `String.prototype.trim`
  // ---------------------------------------------------------------------

  /** The characters `trim` removes: ECMAScript's WhiteSpace (tab, vertical
      tab, form feed, the byte order mark and every space separator) and
      LineTerminator (line feed, carriage return, line and paragraph
      separators). */
  predicate IsJsSpace(c: char) {
    c == '\t' || c == '\U{000B}' || c == '\U{000C}' || c == ' ' || c == '\U{00A0}'
    || c == '\U{FEFF}' || c == '\U{1680}' || ('\U{2000}' <= c <= '\U{200A}')
    || c == '\U{202F}' || c == '\U{205F}' || c == '\U{3000}'
    || c == '\n' || c == '\r' || c == '\U{2028}' || c == '\U{2029}'
  }

  /** `s` without its leading white space. */
  function TrimStart(s: string): (r: string)
    ensures |r| <= |s| && r == s[|s| - |r|..]
    ensures forall i :: 0 <= i < |s| - |r| ==> IsJsSpace(s[i])
    ensures r == [] || !IsJsSpace(r[0])
  {
    if s == [] || !IsJsSpace(s[0]) then s else TrimStart(s[1..])
  }

  /** `s` without its trailing white space. */
  function TrimEnd(s: string): (r: string)
    ensures |r| <= |s| && r == s[..|r|]
    ensures forall i :: |r| <= i < |s| ==> IsJsSpace(s[i])
    ensures r == [] || !IsJsSpace(r[|r| - 1])
  {
    if s == [] || !IsJsSpace(s[|s| - 1]) then s else TrimEnd(s[..|s| - 1])
  }

  /** `s.trim()` */
  function Trim(s: string): string {
    TrimEnd(TrimStart(s))
  }

  /** Every character of `s` is white space. */
  predicate Blank(s: string) {
    forall i :: 0 <= i < |s| ==> IsJsSpace(s[i])
  }

  lemma {:induction false} TrimStartBlank(s: string)
    ensures TrimStart(s) == [] <==> Blank(s)
  {
    if s != [] && IsJsSpace(s[0]) {
      TrimStartBlank(s[1..]);
      assert forall i :: 1 <= i < |s| ==> s[i] == s[1..][i - 1];
    }
  }

  lemma {:induction false} TrimEndBlank(s: string)
    ensures TrimEnd(s) == [] <==> Blank(s)
  {
    if s != [] && IsJsSpace(s[|s| - 1]) {
      TrimEndBlank(s[..|s| - 1]);
      assert forall i :: 0 <= i < |s| - 1 ==> s[i] == s[..|s| - 1][i];
    }
  }

  /** `!newRecord.trim()` holds exactly for texts made only of white space,
      the empty text included. */
  lemma TrimEmptyIffBlank(s: string)
    ensures Trim(s) == [] <==> Blank(s)
  {
    TrimStartBlank(s);
    TrimEndBlank(TrimStart(s));
  }

  // ---------------------------------------------------------------------
  // Wells and records
  // ---------------------------------------------------------------------

  /** A record: the text as typed and the moment it was added (`new Date()`,
      as milliseconds since the epoch). */
  datatype Entry = Entry(text: string, date: int)

  datatype Well = Well(id: int, name: string, location: string, records: seq<Entry>)

  /** The wells on mount. */
  function InitialWells(): seq<Well> {
    [Well(1, "Well A", "Texas", []), Well(2, "Well B", "Oklahoma", [])]
  }

  /** No two wells share an id. */
  predicate DistinctIds(wells: seq<Well>) {
    forall i, j :: 0 <= i < j < |wells| ==> wells[i].id != wells[j].id
  }

  /** The initial wells have the distinct ids 1 and 2 and no records yet. */
  lemma InitialWellsAreEmpty()
    ensures DistinctIds(InitialWells())
    ensures |InitialWells()| == 2 && InitialWells()[0].id == 1 && InitialWells()[1].id == 2
    ensures forall w :: w in InitialWells() ==> w.records == []
    ensures TotalRecords(InitialWells()) == 0
  {
    assert InitialWells()[1..][1..] == [];
  }

  function HasId(id: int): Well -> bool { (w: Well) => w.id == id }
  function Appender(e: Entry): Well -> Well { (w: Well) => w.(records := w.records + [e]) }

  /** The `setWells` updater of `addRecord`: the well with the id gets the
      entry after its records; every other well stays as it was. */
  function AppendEntry(wells: seq<Well>, wellId: int, e: Entry): (r: seq<Well>)
    ensures |r| == |wells|
    ensures forall i :: 0 <= i < |wells| && wells[i].id == wellId ==>
              r[i] == wells[i].(records := wells[i].records + [e])
    ensures forall i :: 0 <= i < |wells| && wells[i].id != wellId ==> r[i] == wells[i]
  {
    UpdateWhere(wells, HasId(wellId), Appender(e))
  }

  /** The number of records over all wells. */
  function TotalRecords(wells: seq<Well>): nat {
    if wells == [] then 0 else |wells[0].records| + TotalRecords(wells[1..])
  }

  /** How many wells carry the id. */
  function CountId(wells: seq<Well>, id: int): nat {
    |Filter(wells, HasId(id))|
  }

  /** Every well with the id gains exactly one record. */
  lemma {:induction false} AppendEntryCount(wells: seq<Well>, wellId: int, e: Entry)
    ensures TotalRecords(AppendEntry(wells, wellId, e)) == TotalRecords(wells) + CountId(wells, wellId)
  {
    if wells != [] {
      var r := AppendEntry(wells, wellId, e);
      assert r[1..] == AppendEntry(wells[1..], wellId, e);
      AppendEntryCount(wells[1..], wellId, e);
    }
  }

  /** With distinct ids, adding to a listed well adds exactly one record in
      all, adding to an unknown id adds none, and the ids stay distinct. */
  lemma AppendEntryAddsOne(wells: seq<Well>, wellId: int, e: Entry)
    requires DistinctIds(wells)
    ensures TotalRecords(AppendEntry(wells, wellId, e))
              == TotalRecords(wells) + (if exists w :: w in wells && w.id == wellId then 1 else 0)
    ensures DistinctIds(AppendEntry(wells, wellId, e))
  {
    AppendEntryCount(wells, wellId, e);
    DistinctCount(wells, wellId);
  }

  lemma {:induction false} DistinctCount(wells: seq<Well>, id: int)
    requires DistinctIds(wells)
    ensures CountId(wells, id) == if exists w :: w in wells && w.id == id then 1 else 0
  {
    if wells != [] {
      assert DistinctIds(wells[1..]);
      DistinctCount(wells[1..], id);
      if wells[0].id == id {
        assert forall w :: w in wells[1..] ==> w.id != id;
      }
      assert forall w :: w in wells ==> w == wells[0] || w in wells[1..];
    }
  }

  // ---------------------------------------------------------------------
  // The component
  // ---------------------------------------------------------------------

  /** The component's state: the wells, the well whose panel is open (the
      object captured when "View Records" was clicked) and the text input. */
  class OilWellApp {
    var wells: seq<Well>
    var selectedWell: Option<Well>
    var newRecord: string

    constructor ()
      ensures wells == InitialWells() && selectedWell == None && newRecord == ""
    {
      wells := InitialWells();
      selectedWell := None;
      newRecord := "";
    }

    /** "View Records" on a well's card. */
    method ViewRecords(well: Well)
      requires well in wells
      modifies this
      ensures selectedWell == Some(well) && wells == old(wells) && newRecord == old(newRecord)
    {
      selectedWell := Some(well);
    }

    /** The panel's Close button. */
    method Close()
      modifies this
      ensures selectedWell == None && wells == old(wells) && newRecord == old(newRecord)
    {
      selectedWell := None;
    }

    /** Typing into the panel's input. */
    method Type(text: string)
      modifies this
      ensures newRecord == text && wells == old(wells) && selectedWell == old(selectedWell)
    {
      newRecord := text;
    }

    /** `addRecord(wellId)` with the clock reading `now`: a blank text changes
        nothing; otherwise the text, untrimmed, is appended to that well's
        records and the input is cleared. The open panel's well is left as
        it was. */
    method AddRecord(wellId: int, now: int)
      modifies this
      ensures Trim(old(newRecord)) == [] ==> wells == old(wells) && newRecord == old(newRecord)
      ensures Trim(old(newRecord)) != [] ==>
                wells == AppendEntry(old(wells), wellId, Entry(old(newRecord), now)) && newRecord == ""
      ensures selectedWell == old(selectedWell)
    {
      if Trim(newRecord) == [] {
        return;
      }
      wells := AppendEntry(wells, wellId, Entry(newRecord, now));
      newRecord := "";
    }
  }

  // ---------------------------------------------------------------------
  // The open panel
  // ---------------------------------------------------------------------

  /** The records the panel lists as written: those of the captured well. */
  function SnapshotPanel(selectedWell: Option<Well>): (r: Option<seq<Entry>>)
    ensures r.Some? <==> selectedWell.Some?
    ensures r.Some? ==> r.value == selectedWell.value.records
  {
    if selectedWell.Some? then Some(selectedWell.value.records) else None
  }

  /** Clicking "View Records" on Well A and adding "pump replaced" stores the
      record, yet the open panel still says "No records yet.". */
  lemma SnapshotPanelMissesAddedRecord(now: int)
    ensures var wells := InitialWells();
            var selected := Some(wells[0]);
            var after := AppendEntry(wells, 1, Entry("pump replaced", now));
            after[0].records == [Entry("pump replaced", now)]
            && SnapshotPanel(selected) == Some([])
  {
  }

  /** The records the panel lists when it looks the open well up by id in the
      current wells. */
  function PanelRecords(wells: seq<Well>, selectedId: Option<int>): (r: Option<seq<Entry>>)
    ensures r.Some? ==> selectedId.Some? && exists w :: w in wells && w.id == selectedId.value && r.value == w.records
    ensures selectedId.Some? && (exists w :: w in wells && w.id == selectedId.value) ==> r.Some?
  {
    if selectedId.None? then None
    else
      var found := Find(wells, HasId(selectedId.value));
      if found.Some? then Some(found.value.records) else None
  }

  /** With the panel looked up by id, a record added to the open well is the
      last one it lists, after the records it listed before. */
  lemma AddedRecordShown(wells: seq<Well>, wellId: int, e: Entry)
    requires DistinctIds(wells)
    requires exists w :: w in wells && w.id == wellId
    ensures PanelRecords(wells, Some(wellId)).Some?
    ensures PanelRecords(AppendEntry(wells, wellId, e), Some(wellId))
              == Some(PanelRecords(wells, Some(wellId)).value + [e])
  {
    FindAfterUpdate(wells, HasId(wellId), Appender(e));
  }
}
