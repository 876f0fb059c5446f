/** The store registry object: two maps updated together. */
module StoreRegistries {
  import opened Common
  import opened StoreTypes
  import opened IdSets
  import opened Stores

  /** The keys of an ordered map, in the order it is iterated. */
  method AscendingIds(keys: set<StoreId>) returns (ids: seq<StoreId>)
    ensures ids == Listing(keys)
  {
    hide Listing, SortIds;
    ids := [];
    var todo := keys;
    while todo != {}
      invariant todo <= keys
      invariant IdSets.Distinct(ids) && forall id :: id in ids <==> id in keys - todo
      decreases |todo|
    {
      var id :| id in todo;
      assert id !in ids;
      ids := ids + [id];
      todo := todo - {id};
    }
    SortIdsIsListing(ids, keys);
    ids := SortIds(ids);
  }

  class StoreRegistry {
    var stores: map<StoreId, StoreInfo>
    var addressIndex: map<Bytes, StoreId>

    ghost function State(): Registry
      reads this
    {
      Registry(stores, addressIndex)
    }

    ghost predicate Valid()
      reads this
    {
      State().Consistent()
    }

    constructor ()
      ensures Valid() && State() == NO_STORES
    {
      stores := map[];
      addressIndex := map[];
    }

    method RegisterStore(store: StoreInfo) returns (status: Status, registered: Option<StoreInfo>)
      requires Valid()
      modifies this
      ensures Valid() && (status, State(), registered) == old(State()).Register(store)
    {
      hide Registry.Consistent, AddressKey;
      RegisterFacts(State(), store);
      var candidate := store.(state := STORE_RUNNING, generation := 1);
      if !ValidStore(candidate) {
        return InvalidArgument, None;
      }
      if candidate.heartbeat < 0 {
        return InvalidArgument, None;
      }
      if candidate.id in stores {
        return Busy, None;
      }
      var key := AddressKey(candidate.address);
      if key in addressIndex {
        return Busy, None;
      }
      stores := stores[candidate.id := candidate];
      addressIndex := addressIndex[key := candidate.id];
      return Ok, Some(candidate);
    }

    method UpdateStore(u: StoreUpdate) returns (status: Status, updated: Option<StoreInfo>)
      requires Valid()
      modifies `stores
      ensures Valid() && (status, State(), updated) == old(State()).Update(u)
    {
      hide Registry.Consistent, AddressKey, ValidStore;
      UpdateFacts(State(), u);
      if u.id == 0 {
        return InvalidArgument, None;
      }
      if u.id !in stores {
        return NotFound, None;
      }
      if u.capacity.None? && u.used.None? && u.state.None? {
        return InvalidArgument, None;
      }
      var candidate := stores[u.id];
      if u.expected.Some? && u.expected.value != candidate.generation {
        return Busy, None;
      }
      if u.capacity.Some? {
        candidate := candidate.(capacity := u.capacity.value);
      }
      if u.used.Some? {
        candidate := candidate.(used := u.used.value);
      }
      if u.state.Some? {
        candidate := candidate.(state := u.state.value);
      }
      if candidate.generation == LAST_GENERATION {
        return Busy, None;
      }
      candidate := candidate.(generation := candidate.generation + 1);
      if !ValidStore(candidate) {
        return InvalidArgument, None;
      }
      stores := stores[u.id := candidate];
      return Ok, Some(candidate);
    }

    method UpdateHeartbeat(id: StoreId, ms: int) returns (status: Status)
      requires Valid()
      modifies `stores
      ensures Valid() && (status, State()) == old(State()).Heartbeat(id, ms)
    {
      hide Registry.Consistent;
      HeartbeatFacts(State(), id, ms);
      if id == 0 || ms < 0 {
        return InvalidArgument;
      }
      if id !in stores {
        return NotFound;
      }
      stores := stores[id := stores[id].(heartbeat := ms)];
      status := Ok;
    }

    method RemoveStore(id: StoreId) returns (status: Status)
      requires Valid()
      modifies this
      ensures Valid() && (status, State()) == old(State()).Remove(id)
    {
      hide Registry.Consistent, AddressKey;
      RemoveFacts(State(), id);
      if id == 0 {
        return InvalidArgument;
      }
      if id !in stores {
        return NotFound;
      }
      addressIndex := addressIndex - {AddressKey(stores[id].address)};
      stores := stores - {id};
      status := Ok;
    }

    method GetStore(id: StoreId) returns (store: Result<StoreInfo>)
      ensures store == State().Get(id)
    {
      if id == 0 {
        return Failure(InvalidArgument);
      }
      if id !in stores {
        return Failure(NotFound);
      }
      return Success(stores[id]);
    }

    method GetStoreByAddress(a: StoreAddress) returns (store: Result<StoreInfo>)
      requires Valid()
      ensures store == State().GetByAddress(a)
      ensures store != Failure(InternalError)
    {
      hide AddressKey;
      if !ValidAddress(a) {
        return Failure(InvalidArgument);
      }
      if AddressKey(a) !in addressIndex {
        return Failure(NotFound);
      }
      return Success(stores[addressIndex[AddressKey(a)]]);
    }

    /** Iterates the ordered map and drops the heartbeats. */
    method ExportPersistent() returns (list: seq<StoreInfo>)
      ensures list == State().Export()
    {
      hide Listing, IdSets.Ascending;
      var ids := AscendingIds(stores.Keys);
      list := [];
      for i := 0 to |ids|
        invariant |list| == i && forall k :: 0 <= k < i ==> ids[k] in stores && list[k] == stores[ids[k]].(heartbeat := 0)
      {
        assert ids[i] in ids;
        list := list + [stores[ids[i]].(heartbeat := 0)];
      }
      assert list == State().Persistent(ids);
    }

    method RestorePersistent(list: seq<StoreInfo>) returns (status: Status)
      modifies this
      ensures var spec := Restore(list);
              if spec.Success? then status == Ok && State() == spec.value && Valid()
              else status == spec.error && State() == old(State())
    {
      hide ValidStore, AddressKey;
      RestoredConsistent(NO_STORES, list);
      var candidate := NO_STORES;
      assert list[0..] == list;
      for i := 0 to |list|
        invariant RestoreFrom(candidate, list[i..]) == Restore(list)
      {
        assert list[i..][1..] == list[i + 1..];
        var s := list[i].(heartbeat := 0);
        if !ValidStore(s) {
          return InvalidArgument;
        }
        if s.id in candidate.stores {
          return Busy;
        }
        var key := AddressKey(s.address);
        if key in candidate.index {
          return Busy;
        }
        candidate := Registry(candidate.stores[s.id := s], candidate.index[key := s.id]);
      }
      stores := candidate.stores;
      addressIndex := candidate.index;
      status := Ok;
    }
  }
}
