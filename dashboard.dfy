/** The signed-in variant's root component (wellbuddy-app/src/WellBuddyApp.jsx):
    the dashboard lists the wells the signed-in user owns, loaded once per
    session change, and creates wells stamped with their owner and appended
    both to the store and to the list on screen. */
module Dashboard {
  import opened Collections
  import opened Firestore

  /** The object the home page hands to `addWell`. The equipment properties
      are optional on it. */
  datatype WellForm = WellForm(
    name: string,
    location: string,
    rodInfo: Option<string>,
    tubingInfo: Option<string>,
    pumpInfo: Option<string>,
    polishRodLiner: Option<string>,
    packing: Option<string>)

  /** `value || ""` */
  function OrEmpty(o: Option<string>): string {
    if o.Some? && Truthy(o.value) then o.value else ""
  }

  /** `newWell` in `addWell`: the document id, the signed-in owner, the given
      name and location, and each equipment property as given or `""`. */
  function MakeWell(id: string, uid: string, f: WellForm): (w: Well)
    ensures w.id == id && w.owner == uid
    ensures w.name == f.name && w.location == f.location
    ensures w.rodInfo == GetOr(f.rodInfo, "") && w.tubingInfo == GetOr(f.tubingInfo, "")
    ensures w.pumpInfo == GetOr(f.pumpInfo, "") && w.polishRodLiner == GetOr(f.polishRodLiner, "")
    ensures w.packing == GetOr(f.packing, "")
  {
    Well(id, uid, f.name, f.location,
         OrEmpty(f.rodInfo), OrEmpty(f.tubingInfo), OrEmpty(f.pumpInfo),
         OrEmpty(f.polishRodLiner), OrEmpty(f.packing))
  }

  /** What `load` puts on the dashboard: nothing when signed out, and the
      wells of the `where("owner", "==", uid)` query when signed in. */
  function OwnedWells(wells: seq<Well>, user: Option<string>): (r: seq<Well>)
    ensures user.None? ==> r == []
    ensures user.Some? ==> forall w :: w in r <==> w in wells && w.owner == user.value
  {
    if user.None? then [] else Filter(wells, OwnedBy(user.value))
  }

  /** A well created by `uid` is listed, last, on `uid`'s dashboard and on
      nobody else's, whose list does not change. */
  lemma CreatedWellListedForOwnerOnly(wells: seq<Well>, id: string, uid: string, other: string, f: WellForm)
    ensures OwnedWells(wells + [MakeWell(id, uid, f)], Some(uid)) == OwnedWells(wells, Some(uid)) + [MakeWell(id, uid, f)]
    ensures other != uid ==> OwnedWells(wells + [MakeWell(id, uid, f)], Some(other)) == OwnedWells(wells, Some(other))
    ensures other != uid ==> MakeWell(id, uid, f) !in OwnedWells(wells + [MakeWell(id, uid, f)], Some(other))
  {
    var w := MakeWell(id, uid, f);
    FilterConcat(wells, [w], OwnedBy(uid));
    FilterConcat(wells, [w], OwnedBy(other));
  }

  /** Wherever the store files a created well among the others, the owner's
      query returns the old owned wells and the new one, and other users'
      queries return what they did. */
  lemma CreatedWellAnywhere(wells: seq<Well>, pos: nat, id: string, uid: string, other: string, f: WellForm)
    requires pos <= |wells|
    ensures var after := wells[..pos] + [MakeWell(id, uid, f)] + wells[pos..];
            multiset(OwnedWells(after, Some(uid))) == multiset(OwnedWells(wells, Some(uid))) + multiset{MakeWell(id, uid, f)}
            && (other != uid ==> OwnedWells(after, Some(other)) == OwnedWells(wells, Some(other)))
  {
    var w := MakeWell(id, uid, f);
    assert wells == wells[..pos] + wells[pos..];
    forall o | o == uid || o == other
      ensures Filter(wells[..pos] + [w] + wells[pos..], OwnedBy(o))
                == Filter(wells[..pos], OwnedBy(o)) + Filter([w], OwnedBy(o)) + Filter(wells[pos..], OwnedBy(o))
      ensures Filter(wells, OwnedBy(o)) == Filter(wells[..pos], OwnedBy(o)) + Filter(wells[pos..], OwnedBy(o))
    {
      FilterConcat(wells[..pos] + [w], wells[pos..], OwnedBy(o));
      FilterConcat(wells[..pos], [w], OwnedBy(o));
      FilterConcat(wells[..pos], wells[pos..], OwnedBy(o));
    }
  }

  /** The dashboard's state: the session's user (a uid), the listed wells and
      whether the first load finished. */
  class Dashboard {
    var user: Option<string>
    var wells: seq<Well>
    var loaded: bool

    constructor (user: Option<string>)
      ensures this.user == user && wells == [] && !loaded
    {
      this.user := user;
      wells := [];
      loaded := false;
    }

    /** The list shows exactly the signed-in user's wells in the store, each
        as often as the store holds it. The owner query promises no order,
        so the order is left free. */
    ghost predicate Synced(store: Store)
      reads this, store
    {
      multiset(wells) == multiset(OwnedWells(store.wells, user))
    }

    /** `load`: empty and loaded when signed out; otherwise the owner query's
        result, then loaded. */
    method Load(store: Store)
      modifies this
      ensures wells == OwnedWells(store.wells, user) && loaded
      ensures user == old(user)
    {
      if user.None? {
        wells := [];
        loaded := true;
        return;
      }
      wells := Filter(store.wells, OwnedBy(user.value));
      loaded := true;
    }

    /** The session changed: the effect keyed on `user` runs `load` again. */
    method SessionChanged(store: Store, user: Option<string>)
      modifies this
      ensures this.user == user && loaded && Synced(store)
    {
      this.user := user;
      Load(store);
    }

    /** `addWell(well)`: nothing when signed out; otherwise the document is
        created under the fresh id standing for `crypto.randomUUID()` and the
        same well is appended to the list. */
    method AddWell(store: Store, f: WellForm, freshId: string)
      requires user.Some? ==> store.Get(freshId).None?
      modifies this, store
      ensures user == old(user) && loaded == old(loaded)
      ensures old(user).None? ==> wells == old(wells) && store.wells == old(store.wells)
      ensures old(user).Some? ==>
                store.wells == old(store.wells) + [MakeWell(freshId, user.value, f)]
                && wells == old(wells) + [MakeWell(freshId, user.value, f)]
      ensures store.records == old(store.records)
      ensures old(Synced(store)) ==> Synced(store)
    {
      if user.None? {
        return;
      }
      var w := MakeWell(freshId, user.value, f);
      CreatedWellListedForOwnerOnly(store.wells, freshId, user.value, user.value, f);
      store.CreateWell(w);
      wells := wells + [w];
    }

    /** The home page's `handleAddWell` (the caller of `addWell`): nothing is
        written unless both name and location are filled in. */
    method HandleAddWell(store: Store, name: string, location: string, freshId: string)
      requires user.Some? ==> store.Get(freshId).None?
      modifies this, store
      ensures !(Truthy(name) && Truthy(location)) ==> wells == old(wells) && store.wells == old(store.wells)
      ensures loaded == old(loaded)
      ensures Truthy(name) && Truthy(location) && old(user).Some? ==>
                store.wells == old(store.wells) + [MakeWell(freshId, old(user).value, WellForm(name, location, None, None, None, None, None))]
                && wells == old(wells) + [MakeWell(freshId, old(user).value, WellForm(name, location, None, None, None, None, None))]
      ensures old(user).None? ==> wells == old(wells) && store.wells == old(store.wells)
      ensures store.records == old(store.records) && user == old(user)
      ensures old(Synced(store)) ==> Synced(store)
    {
      if !Truthy(name) || !Truthy(location) {
        return;
      }
      AddWell(store, WellForm(name, location, None, None, None, None, None), freshId);
    }
  }
}
